/** The alarm thread of the wasm build and the sleeps that register with it.

    One thread owns a heap of deadlines. Any number of sleeps register, are
    polled again by other tasks, and are dropped, while that thread pops,
    fires, sweeps and parks. The model is a transition system: every load,
    store, compare-and-swap, critical section, unpark and clock reading is one
    atomic step, and the steps of different threads interleave freely. Clock
    readings are arbitrary, so nothing below leans on two threads' clocks
    agreeing. */
module Alarm {
  import opened Options

  // ------------------------------------------------------------ the state

  datatype SlotState = Armed | Fired | Cancelled

  /** What a registration and its sleep share, with the deadline of the heap
      entry that holds it and the sleep that made it. */
  datatype Slot = Slot(state: SlotState, waker: Option<nat>, deadline: int, owner: nat)

  /** Where a sleep stands inside `poll` or `drop`. A waker is named by the
      task it wakes. */
  datatype Phase =
    | Resting(waiting: Option<nat>)               // never polled, or last poll was Pending for this waker
    | Entered(waker: nat)                         // reads the clock next
    | Behind(waker: nat)                          // the clock was behind; reads the flag next
    | Choosing(waker: nat)                        // not elapsed; reads the flag again
    | Replacing(waker: nat)                       // saw ARMED; stores its waker next
    | Registering(waker: nat)                     // pushes a new slot next
    | Unparking(waker: nat, made: nat, known: bool)
    | Rechecking(waker: nat)
    | RecheckingFlag(waker: nat)
    | Done                                        // returned Ready
    | Clearing(slotId: nat)                       // dropped: claimed the slot, clears its waker next
    | Noting(slotId: nat)                         // counts the cancellation next
    | Gone

  datatype Sleep = Sleep(deadline: int, slot: Option<nat>, phase: Phase)

  /** Where the alarm thread stands in its loop. */
  datatype Pass =
    | Starting
    | Collecting
    | ReadingClock
    | Peeking(now: int)
    | Holding(now: int, slot: nat)                // popped, not yet fired
    | TakingWaker(now: int, slot: nat)            // claimed the slot
    | Waking(now: int, slot: nat, waker: nat)
    | Counting(now: int)
    | Sweeping(now: int, count: nat, left: multiset<nat>)
    | Subtracting(now: int, count: nat)
    | Settling(now: int)
    | Parked(until: Option<int>)

  datatype Wakeup = Wakeup(slot: nat, waker: nat, now: int)

  datatype World = World(
    slots: map<nat, Slot>,
    sleeps: map<nat, Sleep>,
    arrivals: multiset<nat>,
    published: bool,
    heap: multiset<nat>,
    pass: Pass,
    token: bool,
    cancelled: nat,
    log: seq<Wakeup>)

  const INITIAL := World(map[], map[], multiset{}, false, multiset{}, Starting, false, 0, [])

  // ------------------------------------------------------------ the steps

  datatype Step =
    // the alarm thread
    | Publish | Collect | ReadClock(now: int) | Pop(slot: nat) | StopPeeking
    | Claim | TakeWaker | Wake | CountCancelled | Sweep(slot: nat) | EndSweep
    | Subtract | Park(until: Option<int>) | Resume(consume: bool)
    // a sleep's poll
    | Create(id: nat, deadline: int) | Poll(id: nat, waker: nat)
    | PollClock(id: nat, now: int) | PollFlag(id: nat) | Choose(id: nat)
    | Replace(id: nat) | Register(id: nat, slot: nat) | Unpark(id: nat)
    | RecheckClock(id: nat, now: int) | RecheckFlag(id: nat)
    // a sleep's drop
    | Drop(id: nat) | ClearWaker(id: nat) | NoteDrop(id: nat)

  predicate Earliest(w: World, s: nat) {
    && s in w.heap
    && s in w.slots
    && forall t :: t in w.heap ==> t in w.slots && w.slots[s].deadline <= w.slots[t].deadline
  }

  predicate NothingDue(w: World, now: int) {
    forall t :: t in w.heap ==> t in w.slots && w.slots[t].deadline > now
  }

  ghost predicate Enabled(w: World, step: Step) {
    match step
    case Publish => w.pass.Starting?
    case Collect => w.pass.Collecting?
    case ReadClock(_) => w.pass.ReadingClock?
    case Pop(s) => w.pass.Peeking? && Earliest(w, s) && w.slots[s].deadline <= w.pass.now
    case StopPeeking => w.pass.Peeking? && NothingDue(w, w.pass.now)
    case Claim => w.pass.Holding? && w.pass.slot in w.slots
    case TakeWaker => w.pass.TakingWaker? && w.pass.slot in w.slots
    case Wake => w.pass.Waking?
    case CountCancelled => w.pass.Counting?
    case Sweep(s) => w.pass.Sweeping? && s in w.pass.left && s in w.slots
    case EndSweep => w.pass.Sweeping? && w.pass.left == multiset{}
    case Subtract => w.pass.Subtracting?
    case Park(until) =>
      && w.pass.Settling?
      && (match until
          case None => w.heap == multiset{}
          case Some(d) => exists s :: Earliest(w, s) && w.slots[s].deadline == d)
    case Resume(consume) => w.pass.Parked? && (consume ==> w.token)
    case Create(id, _) => id !in w.sleeps
    case Poll(id, _) => id in w.sleeps && (w.sleeps[id].phase.Resting? || w.sleeps[id].phase.Done?)
    case PollClock(id, _) => id in w.sleeps && w.sleeps[id].phase.Entered?
    case PollFlag(id) => id in w.sleeps && w.sleeps[id].phase.Behind?
    case Choose(id) => id in w.sleeps && w.sleeps[id].phase.Choosing?
    case Replace(id) =>
      && id in w.sleeps && w.sleeps[id].phase.Replacing?
      && w.sleeps[id].slot.Some? && w.sleeps[id].slot.value in w.slots
    case Register(id, s) => id in w.sleeps && w.sleeps[id].phase.Registering? && s !in w.slots
    case Unpark(id) => id in w.sleeps && w.sleeps[id].phase.Unparking?
    case RecheckClock(id, _) => id in w.sleeps && w.sleeps[id].phase.Rechecking?
    case RecheckFlag(id) => id in w.sleeps && w.sleeps[id].phase.RecheckingFlag?
    case Drop(id) => id in w.sleeps && (w.sleeps[id].phase.Resting? || w.sleeps[id].phase.Done?)
    case ClearWaker(id) => id in w.sleeps && w.sleeps[id].phase.Clearing? && w.sleeps[id].phase.slotId in w.slots
    case NoteDrop(id) => id in w.sleeps && w.sleeps[id].phase.Noting?
  }

  function Enter(w: World, id: nat, phase: Phase): World
    requires id in w.sleeps
  {
    w.(sleeps := w.sleeps[id := w.sleeps[id].(phase := phase)])
  }

  /** The state of the slot a sleep holds; `None` when it holds none. */
  function Flag(w: World, id: nat): Option<SlotState>
    requires id in w.sleeps
  {
    match w.sleeps[id].slot
    case None => None
    case Some(s) => if s in w.slots then Some(w.slots[s].state) else None
  }

  /** `fire` has won the popped slot. */
  function Claimed(w: World, s: nat): World
    requires w.pass.Holding? && s in w.slots
  {
    w.(slots := w.slots[s := w.slots[s].(state := Fired)], pass := TakingWaker(w.pass.now, s))
  }

  /** It has taken the waker out. */
  function Took(w: World, s: nat, k: nat): World
    requires w.pass.TakingWaker? && s in w.slots
  {
    w.(slots := w.slots[s := w.slots[s].(waker := None)], pass := Waking(w.pass.now, s, k))
  }

  /** It has woken the task: `log` is what was woken, in order. */
  function Woke(w: World): World
    requires w.pass.Waking?
  {
    w.(log := w.log + [Wakeup(w.pass.slot, w.pass.waker, w.pass.now)], pass := Peeking(w.pass.now))
  }

  /** A sweep has looked at one entry and left `kept` in the heap. */
  function Examined(w: World, s: nat, kept: multiset<nat>): World
    requires w.pass.Sweeping?
  {
    w.(heap := kept, pass := w.pass.(left := w.pass.left - multiset{s}))
  }

  /** A sleep's poll stores its own waker. Where the slot already holds one
      that wakes the same task, that is the same value. */
  function Replaced(w: World, id: nat, s: nat, k: nat): World
    requires id in w.sleeps && s in w.slots
  {
    Enter(w.(slots := w.slots[s := w.slots[s].(waker := Some(k))]), id, Rechecking(k))
  }

  function Registered(w: World, id: nat, s: nat, k: nat): World
    requires id in w.sleeps
  {
    Enter(w.(slots := w.slots[s := Slot(Armed, Some(k), w.sleeps[id].deadline, id)],
             arrivals := w.arrivals + multiset{s}), id, Unparking(k, s, w.published))
  }

  function Unparked(w: World, id: nat, s: nat, k: nat, known: bool): World
    requires id in w.sleeps
  {
    w.(token := w.token || known,
       sleeps := w.sleeps[id := w.sleeps[id].(slot := Some(s), phase := Rechecking(k))])
  }

  function DroppedArmed(w: World, id: nat, s: nat): World
    requires id in w.sleeps && s in w.slots
  {
    w.(slots := w.slots[s := w.slots[s].(state := Cancelled)],
       sleeps := w.sleeps[id := w.sleeps[id].(slot := None, phase := Clearing(s))])
  }

  function DroppedIdle(w: World, id: nat): World
    requires id in w.sleeps
  {
    w.(sleeps := w.sleeps[id := w.sleeps[id].(slot := None, phase := Gone)])
  }

  function Cleared(w: World, id: nat, s: nat): World
    requires id in w.sleeps && s in w.slots
  {
    Enter(w.(slots := w.slots[s := w.slots[s].(waker := None)]), id, Noting(s))
  }

  function Noted(w: World, id: nat): World
    requires id in w.sleeps
  {
    Enter(w.(cancelled := w.cancelled + 1), id, Gone)
  }

  ghost function Do(w: World, step: Step): World
    requires Enabled(w, step)
  {
    match step
    case Publish => w.(published := true, pass := Collecting)
    case Collect => w.(heap := w.heap + w.arrivals, arrivals := multiset{}, pass := ReadingClock)
    case ReadClock(now) => w.(pass := Peeking(now))
    case Pop(s) => w.(heap := w.heap - multiset{s}, pass := Holding(w.pass.now, s))
    case StopPeeking => w.(pass := Counting(w.pass.now))
    case Claim =>
      var s := w.pass.slot;
      if w.slots[s].state == Armed then
        Claimed(w, s)
      else
        w.(pass := Peeking(w.pass.now))
    case TakeWaker =>
      var s := w.pass.slot;
      (match w.slots[s].waker
       case None => w.(pass := Peeking(w.pass.now))
       case Some(k) => Took(w, s, k))
    case Wake => Woke(w)
    case CountCancelled =>
      if w.cancelled <= |w.heap| / 2 then
        w.(pass := Settling(w.pass.now))
      else
        w.(heap := multiset{}, pass := Sweeping(w.pass.now, w.cancelled, w.heap))
    case Sweep(s) => Examined(w, s, if w.slots[s].state == Armed then w.heap + multiset{s} else w.heap)
    case EndSweep => w.(pass := Subtracting(w.pass.now, w.pass.count))
    case Subtract =>
      // The counter is a wrapping machine word; CounterCovers proves it never wraps here.
      w.(cancelled := if w.pass.count <= w.cancelled then w.cancelled - w.pass.count else 0,
         pass := Settling(w.pass.now))
    case Park(until) => w.(pass := Parked(until))
    case Resume(consume) => w.(token := w.token && !consume, pass := Collecting)
    case Create(id, deadline) => w.(sleeps := w.sleeps[id := Sleep(deadline, None, Resting(None))])
    case Poll(id, k) => Enter(w, id, Entered(k))
    case PollClock(id, now) =>
      var k := w.sleeps[id].phase.waker;
      if now >= w.sleeps[id].deadline then Enter(w, id, Done)
      else if w.sleeps[id].slot.None? then Enter(w, id, Registering(k))
      else Enter(w, id, Behind(k))
    case PollFlag(id) =>
      if Flag(w, id) == Some(Fired) then Enter(w, id, Done) else Enter(w, id, Choosing(w.sleeps[id].phase.waker))
    case Choose(id) =>
      var k := w.sleeps[id].phase.waker;
      if Flag(w, id) == Some(Armed) then Enter(w, id, Replacing(k)) else Enter(w, id, Registering(k))
    case Replace(id) => Replaced(w, id, w.sleeps[id].slot.value, w.sleeps[id].phase.waker)
    case Register(id, s) => Registered(w, id, s, w.sleeps[id].phase.waker)
    case Unpark(id) => Unparked(w, id, w.sleeps[id].phase.made, w.sleeps[id].phase.waker, w.sleeps[id].phase.known)
    case RecheckClock(id, now) =>
      if now >= w.sleeps[id].deadline then Enter(w, id, Done)
      else Enter(w, id, RecheckingFlag(w.sleeps[id].phase.waker))
    case RecheckFlag(id) =>
      if Flag(w, id) == Some(Fired) then Enter(w, id, Done)
      else Enter(w, id, Resting(Some(w.sleeps[id].phase.waker)))
    case Drop(id) =>
      if Flag(w, id) == Some(Armed) then DroppedArmed(w, id, w.sleeps[id].slot.value) else DroppedIdle(w, id)
    case ClearWaker(id) => Cleared(w, id, w.sleeps[id].phase.slotId)
    case NoteDrop(id) => Noted(w, id)
  }

  ghost predicate Next(w: World, v: World) {
    exists step :: Enabled(w, step) && v == Do(w, step)
  }

  ghost predicate Linked(run: seq<World>, i: nat)
    requires 0 < i < |run|
  {
    Next(run[i - 1], run[i])
  }

  /** Every interleaving, from the registry's creation on. */
  ghost predicate IsRun(run: seq<World>) {
    && run != []
    && run[0] == INITIAL
    && forall i {:trigger Linked(run, i)} :: 0 < i < |run| ==> Linked(run, i)
  }

  // ------------------------------------------------------- the invariants

  /** The popped entry the alarm thread has not fired yet, and the entries a
      sweep has not looked at. */
  function InHand(pass: Pass): multiset<nat> {
    match pass
    case Holding(_, s) => multiset{s}
    case Sweeping(_, _, left) => left
    case _ => multiset{}
  }

  /** Every entry the alarm thread still has to look at, wherever it is. */
  function Held(w: World): multiset<nat> {
    w.arrivals + w.heap + InHand(w.pass)
  }

  /** The registration a sleep stands behind now. */
  function Current(sleep: Sleep): Option<nat> {
    if sleep.phase.Unparking? then Some(sleep.phase.made) else sleep.slot
  }

  predicate Delivering(pass: Pass, s: nat) {
    (pass.TakingWaker? || pass.Waking?) && pass.slot == s
  }

  ghost predicate Logged(log: seq<Wakeup>, s: nat) {
    exists i :: 0 <= i < |log| && log[i].slot == s
  }

  ghost predicate LoggedFor(log: seq<Wakeup>, s: nat, k: nat) {
    exists i :: 0 <= i < |log| && log[i].slot == s && log[i].waker == k
  }

  /** The wake this slot owes to waker `k` is on its way, or given. */
  ghost predicate Answering(pass: Pass, log: seq<Wakeup>, s: nat, waker: Option<nat>, k: nat) {
    || (pass.TakingWaker? && pass.slot == s && waker == Some(k))
    || (pass.Waking? && pass.slot == s && pass.waker == k)
    || LoggedFor(log, s, k)
  }

  /** One slot against the sleep that made it, how many entries hold it, and
      whether its answer is on its way or given. */
  ghost predicate SlotFits(s: nat, slot: Slot, sleep: Sleep, held: nat, answered: bool) {
    && slot.deadline == sleep.deadline
    && match slot.state
       case Armed => held == 1 && slot.waker.Some? && Current(sleep) == Some(s)
       case Fired => held == 0 && answered
       case Cancelled =>
         && held <= 1
         && (sleep.phase == Clearing(s) || (slot.waker == None && (sleep.phase == Noting(s) || sleep.phase.Gone?)))
  }

  ghost predicate SlotOk(w: World, s: nat)
    requires s in w.slots
  {
    && w.slots[s].owner in w.sleeps
    && SlotFits(s, w.slots[s], w.sleeps[w.slots[s].owner], Held(w)[s], Delivering(w.pass, s) || Logged(w.log, s))
  }

  ghost predicate Owns(slots: map<nat, Slot>, id: nat, s: nat) {
    s in slots && slots[s].owner == id && slots[s].state != Cancelled
  }

  /** While the slot is armed, it is `k` that it will wake. */
  predicate StoredIfArmed(slots: map<nat, Slot>, s: nat, k: nat) {
    s in slots && (slots[s].state == Armed ==> slots[s].waker == Some(k))
  }

  /** One sleep against its slot, and what it is owed while it rests. */
  ghost predicate SleepFits(id: nat, sleep: Sleep, slots: map<nat, Slot>, pass: Pass, log: seq<Wakeup>) {
    && (sleep.slot.Some? ==> Owns(slots, id, sleep.slot.value))
    && match sleep.phase
       case Resting(None) => sleep.slot.None?
       case Resting(Some(k)) =>
         && sleep.slot.Some?
         && StoredIfArmed(slots, sleep.slot.value, k)
         && (slots[sleep.slot.value].state == Fired ==>
               Answering(pass, log, sleep.slot.value, slots[sleep.slot.value].waker, k))
       case Entered(_) => true
       case Behind(_) => sleep.slot.Some?
       case Choosing(_) => sleep.slot.Some?
       case Replacing(_) => sleep.slot.Some?
       case Registering(_) => sleep.slot.Some? ==> slots[sleep.slot.value].state == Fired
       case Unparking(k, s, _) =>
         && (sleep.slot.Some? ==> slots[sleep.slot.value].state == Fired)
         && Owns(slots, id, s)
         && StoredIfArmed(slots, s, k)
       case Rechecking(k) => sleep.slot.Some? && StoredIfArmed(slots, sleep.slot.value, k)
       case RecheckingFlag(k) => sleep.slot.Some? && StoredIfArmed(slots, sleep.slot.value, k)
       case Done => true
       case Clearing(s) => sleep.slot.None? && s in slots && slots[s].owner == id && slots[s].state == Cancelled
       case Noting(_) => sleep.slot.None?
       case Gone => sleep.slot.None?
  }

  ghost predicate SlotsOk(w: World) {
    && (forall s :: s in w.slots ==> SlotOk(w, s))
    && (forall s :: s in Held(w) ==> s in w.slots)
  }

  ghost predicate SleepsOk(w: World) {
    forall id :: id in w.sleeps ==> SleepFits(id, w.sleeps[id], w.slots, w.pass, w.log)
  }

  /** A slot is answered at most once, never before its deadline by the alarm
      thread's own clock, and never after its sleep was dropped. */
  ghost predicate LogOk(w: World) {
    && (forall i :: 0 <= i < |w.log| ==>
          && w.log[i].slot in w.slots
          && w.slots[w.log[i].slot].state == Fired
          && w.slots[w.log[i].slot].deadline <= w.log[i].now)
    && (forall i, j :: 0 <= i < j < |w.log| ==> w.log[i].slot != w.log[j].slot)
    && (w.pass.Holding? ==> w.pass.slot in w.slots && w.slots[w.pass.slot].deadline <= w.pass.now)
    && (w.pass.TakingWaker? || w.pass.Waking? ==>
          && w.pass.slot in w.slots
          && w.slots[w.pass.slot].state == Fired
          && w.slots[w.pass.slot].deadline <= w.pass.now
          && !Logged(w.log, w.pass.slot))
    && (w.pass.TakingWaker? ==> w.slots[w.pass.slot].waker.Some?)
  }

  predicate Announces(phase: Phase) {
    phase.Unparking? && phase.known
  }

  ghost predicate AboutToUnpark(w: World) {
    exists id :: id in w.sleeps && Announces(w.sleeps[id].phase)
  }

  /** Nothing waits in the arrivals behind the alarm thread's back. */
  ghost predicate ArrivalsAnnounced(w: World) {
    && (w.published <==> !w.pass.Starting?)
    && (!w.pass.Starting? && !w.pass.Collecting? && w.arrivals != multiset{} ==> w.token || AboutToUnpark(w))
  }

  predicate Ahead(slots: map<nat, Slot>, entries: multiset<nat>, now: int) {
    forall t :: t in entries ==> t in slots && slots[t].deadline > now
  }

  /** What the pass has established about the deadlines left in the heap. */
  ghost predicate HeapAhead(w: World) {
    match w.pass
    case Counting(now) => Ahead(w.slots, w.heap, now)
    case Sweeping(now, _, left) => Ahead(w.slots, w.heap + left, now)
    case Subtracting(now, _) => Ahead(w.slots, w.heap, now)
    case Settling(now) => Ahead(w.slots, w.heap, now)
    case Parked(None) => w.heap == multiset{}
    case Parked(Some(d)) => Ahead(w.slots, w.heap, d - 1)
    case _ => true
  }

  /** A sweep never subtracts more than was counted. */
  ghost predicate CounterCovers(w: World) {
    w.pass.Sweeping? || w.pass.Subtracting? ==> w.pass.count <= w.cancelled
  }

  ghost predicate Inv(w: World) {
    SlotsOk(w) && SleepsOk(w) && LogOk(w) && ArrivalsAnnounced(w) && HeapAhead(w) && CounterCovers(w)
  }

  // ------------------------------------------- steps of the alarm thread

  predicate Firing(pass: Pass) {
    pass.TakingWaker? || pass.Waking?
  }

  /** Moving entries between the arrivals, the heap and the hand changes no
      promise. */
  lemma ShiftKeeps(w: World, v: World)
    requires SlotsOk(w) && SleepsOk(w)
    requires v.slots == w.slots && v.sleeps == w.sleeps && v.log == w.log
    requires Held(v) == Held(w)
    requires !Firing(w.pass) && !Firing(v.pass)
    ensures SlotsOk(v) && SleepsOk(v)
    ensures AboutToUnpark(w) ==> AboutToUnpark(v)
  {
    forall t | t in v.slots ensures SlotOk(v, t) {
      assert SlotOk(w, t);
    }
    forall id | id in v.sleeps ensures SleepFits(id, v.sleeps[id], v.slots, v.pass, v.log) {
      assert SleepFits(id, w.sleeps[id], w.slots, w.pass, w.log);
    }
  }

  /** Neither does forgetting an entry whose slot cannot be answered. */
  lemma ForgetKeeps(w: World, v: World, s: nat)
    requires SlotsOk(w) && SleepsOk(w)
    requires v.slots == w.slots && v.sleeps == w.sleeps && v.log == w.log
    requires s in w.slots && w.slots[s].state != Armed && Held(v) == Held(w) - multiset{s}
    requires !Firing(w.pass) && !Firing(v.pass)
    ensures SlotsOk(v) && SleepsOk(v)
    ensures AboutToUnpark(w) ==> AboutToUnpark(v)
  {
    forall t | t in v.slots ensures SlotOk(v, t) {
      assert SlotOk(w, t);
    }
    forall id | id in v.sleeps ensures SleepFits(id, v.sleeps[id], v.slots, v.pass, v.log) {
      assert SleepFits(id, w.sleeps[id], w.slots, w.pass, w.log);
    }
  }

  lemma PublishKeeps(w: World)
    requires Inv(w) && Enabled(w, Publish)
    ensures Inv(Do(w, Publish))
  {
    var v := Do(w, Publish);
    assert Held(v) == Held(w);
    ShiftKeeps(w, v);
  }

  lemma CollectKeeps(w: World)
    requires Inv(w) && Enabled(w, Collect)
    ensures Inv(Do(w, Collect))
  {
    var v := Do(w, Collect);
    assert Held(v) == Held(w);
    ShiftKeeps(w, v);
  }

  lemma ResumeKeeps(w: World, consume: bool)
    requires Inv(w) && Enabled(w, Resume(consume))
    ensures Inv(Do(w, Resume(consume)))
  {
    var v := Do(w, Resume(consume));
    assert Held(v) == Held(w);
    ShiftKeeps(w, v);
  }

  lemma ReadClockKeeps(w: World, now: int)
    requires Inv(w) && Enabled(w, ReadClock(now))
    ensures Inv(Do(w, ReadClock(now)))
  {
    var v := Do(w, ReadClock(now));
    assert Held(v) == Held(w);
    ShiftKeeps(w, v);
  }

  lemma PopAcross(arrivals: multiset<nat>, heap: multiset<nat>, s: nat)
    requires s in heap
    ensures arrivals + (heap - multiset{s}) + multiset{s} == arrivals + heap + multiset{}
  {
  }

  lemma PopFits(w: World, s: nat)
    requires SlotsOk(w) && SleepsOk(w) && Enabled(w, Pop(s))
    ensures SlotsOk(Do(w, Pop(s))) && SleepsOk(Do(w, Pop(s)))
    ensures AboutToUnpark(w) ==> AboutToUnpark(Do(w, Pop(s)))
  {
    PopAcross(w.arrivals, w.heap, s);
    ShiftKeeps(w, Do(w, Pop(s)));
  }

  lemma PopKeeps(w: World, s: nat)
    requires Inv(w) && Enabled(w, Pop(s))
    ensures Inv(Do(w, Pop(s)))
  {
    PopFits(w, s);
  }

  lemma StopPeekingKeeps(w: World)
    requires Inv(w) && Enabled(w, StopPeeking)
    ensures Inv(Do(w, StopPeeking))
  {
    var v := Do(w, StopPeeking);
    assert Held(v) == Held(w);
    ShiftKeeps(w, v);
  }

  lemma SkipSweepKeeps(w: World)
    requires Inv(w)
    requires w.pass.Counting?
    ensures Inv(w.(pass := Settling(w.pass.now)))
  {
    var v := w.(pass := Settling(w.pass.now));
    assert Held(v) == Held(w);
    ShiftKeeps(w, v);
  }

  lemma BeginSweepKeeps(w: World)
    requires Inv(w)
    requires w.pass.Counting?
    ensures Inv(w.(heap := multiset{}, pass := Sweeping(w.pass.now, w.cancelled, w.heap)))
  {
    var v := w.(heap := multiset{}, pass := Sweeping(w.pass.now, w.cancelled, w.heap));
    assert v.heap + v.pass.left == w.heap;
    assert Held(v) == Held(w);
    ShiftKeeps(w, v);
  }

  lemma PassAcross(arrivals: multiset<nat>, heap: multiset<nat>, left: multiset<nat>, s: nat)
    requires s in left
    ensures (heap + multiset{s}) + (left - multiset{s}) == heap + left
    ensures arrivals + (heap + multiset{s}) + (left - multiset{s}) == arrivals + heap + left
    ensures arrivals + heap + (left - multiset{s}) == arrivals + heap + left - multiset{s}
    ensures forall t :: t in heap + (left - multiset{s}) ==> t in heap + left
  {
  }

  lemma ExaminedHolds(w: World, s: nat)
    requires w.pass.Sweeping? && s in w.pass.left
    ensures Held(Examined(w, s, w.heap + multiset{s})) == Held(w)
    ensures Held(Examined(w, s, w.heap)) == Held(w) - multiset{s}
  {
    PassAcross(w.arrivals, w.heap, w.pass.left, s);
  }

  lemma SweepKeptFits(w: World, s: nat)
    requires SlotsOk(w) && SleepsOk(w) && w.pass.Sweeping? && s in w.pass.left
    ensures SlotsOk(Examined(w, s, w.heap + multiset{s})) && SleepsOk(Examined(w, s, w.heap + multiset{s}))
    ensures AboutToUnpark(w) ==> AboutToUnpark(Examined(w, s, w.heap + multiset{s}))
  {
    ExaminedHolds(w, s);
    ShiftKeeps(w, Examined(w, s, w.heap + multiset{s}));
  }

  lemma ExaminedThreadSide(w: World, s: nat, kept: multiset<nat>)
    requires LogOk(w) && HeapAhead(w) && CounterCovers(w) && w.pass.Sweeping?
    requires forall t :: t in kept + (w.pass.left - multiset{s}) ==> t in w.heap + w.pass.left
    ensures LogOk(Examined(w, s, kept)) && HeapAhead(Examined(w, s, kept)) && CounterCovers(Examined(w, s, kept))
  {
  }

  /** A sweep keeps an entry whose slot can still be answered. */
  lemma SweepKeptKeeps(w: World, s: nat)
    requires Inv(w) && w.pass.Sweeping? && s in w.pass.left
    ensures Inv(Examined(w, s, w.heap + multiset{s}))
  {
    SweepKeptFits(w, s);
    PassAcross(w.arrivals, w.heap, w.pass.left, s);
    ExaminedThreadSide(w, s, w.heap + multiset{s});
  }

  lemma SweepDroppedFits(w: World, s: nat)
    requires SlotsOk(w) && SleepsOk(w) && w.pass.Sweeping? && s in w.pass.left && s in w.slots
    requires w.slots[s].state != Armed
    ensures SlotsOk(Examined(w, s, w.heap)) && SleepsOk(Examined(w, s, w.heap))
    ensures AboutToUnpark(w) ==> AboutToUnpark(Examined(w, s, w.heap))
  {
    ExaminedHolds(w, s);
    ForgetKeeps(w, Examined(w, s, w.heap), s);
  }

  /** It drops only an entry whose slot can no longer be answered. */
  lemma SweepDroppedKeeps(w: World, s: nat)
    requires Inv(w) && w.pass.Sweeping? && s in w.pass.left && s in w.slots
    requires w.slots[s].state != Armed
    ensures Inv(Examined(w, s, w.heap))
  {
    SweepDroppedFits(w, s);
    PassAcross(w.arrivals, w.heap, w.pass.left, s);
    ExaminedThreadSide(w, s, w.heap);
  }

  lemma EndSweepKeeps(w: World)
    requires Inv(w) && Enabled(w, EndSweep)
    ensures Inv(Do(w, EndSweep))
  {
    var v := Do(w, EndSweep);
    assert w.heap + w.pass.left == w.heap;
    assert Held(v) == Held(w);
    ShiftKeeps(w, v);
  }

  lemma SubtractKeeps(w: World)
    requires Inv(w) && Enabled(w, Subtract)
    ensures Inv(Do(w, Subtract))
  {
    var v := Do(w, Subtract);
    assert Held(v) == Held(w);
    ShiftKeeps(w, v);
  }

  lemma ParkedIsAhead(w: World, until: Option<int>)
    requires Enabled(w, Park(until))
    ensures HeapAhead(w.(pass := Parked(until)))
  {
  }

  lemma ParkKeeps(w: World, until: Option<int>)
    requires Inv(w) && Enabled(w, Park(until))
    ensures Inv(w.(pass := Parked(until)))
  {
    var v := w.(pass := Parked(until));
    ParkedIsAhead(w, until);
    assert Held(v) == Held(w);
    ShiftKeeps(w, v);
  }

  lemma ClaimFitsSlots(w: World, s: nat)
    requires SlotsOk(w) && w.pass.Holding? && s == w.pass.slot && s in w.slots && w.slots[s].state == Armed
    ensures SlotsOk(Claimed(w, s))
  {
    var v := Claimed(w, s);
    assert Held(v) == Held(w) - multiset{s};
    forall t | t in v.slots ensures SlotOk(v, t) {
      assert SlotOk(w, t);
    }
  }

  lemma ClaimFitsSleeps(w: World, s: nat)
    requires SleepsOk(w) && w.pass.Holding? && s == w.pass.slot && s in w.slots && w.slots[s].state == Armed
    ensures SleepsOk(Claimed(w, s))
  {
    var v := Claimed(w, s);
    forall id | id in v.sleeps ensures SleepFits(id, v.sleeps[id], v.slots, v.pass, v.log) {
      assert SleepFits(id, w.sleeps[id], w.slots, w.pass, w.log);
    }
  }

  lemma ClaimFitsLog(w: World, s: nat)
    requires s in w.slots && SlotOk(w, s) && LogOk(w) && w.pass.Holding? && s == w.pass.slot && w.slots[s].state == Armed
    ensures LogOk(Claimed(w, s))
  {
    assert Held(w)[s] > 0;
  }

  /** The compare-and-swap of `fire` wins on an armed slot. */
  lemma ClaimWonKeeps(w: World, s: nat)
    requires Inv(w) && w.pass.Holding? && s == w.pass.slot && s in w.slots && w.slots[s].state == Armed
    ensures Inv(Claimed(w, s))
  {
    assert SlotOk(w, s);
    ClaimFitsSlots(w, s);
    ClaimFitsSleeps(w, s);
    ClaimFitsLog(w, s);
    assert AboutToUnpark(w) ==> AboutToUnpark(Claimed(w, s));
  }

  lemma LostHolds(w: World)
    requires w.pass.Holding?
    ensures Held(w)[w.pass.slot] > 0
    ensures Held(w.(pass := Peeking(w.pass.now))) == Held(w) - multiset{w.pass.slot}
  {
  }

  lemma ClaimLostFits(w: World)
    requires SlotsOk(w) && SleepsOk(w) && Enabled(w, Claim) && w.slots[w.pass.slot].state != Armed
    ensures w.slots[w.pass.slot].state == Cancelled
    ensures SlotsOk(w.(pass := Peeking(w.pass.now))) && SleepsOk(w.(pass := Peeking(w.pass.now)))
    ensures AboutToUnpark(w) ==> AboutToUnpark(w.(pass := Peeking(w.pass.now)))
  {
    var s := w.pass.slot;
    LostHolds(w);
    assert SlotOk(w, s);
    ForgetKeeps(w, w.(pass := Peeking(w.pass.now)), s);
  }

  /** It loses only to a cancellation, and the entry is forgotten. */
  lemma ClaimLostKeeps(w: World)
    requires Inv(w) && Enabled(w, Claim) && w.slots[w.pass.slot].state != Armed
    ensures w.slots[w.pass.slot].state == Cancelled && Inv(Do(w, Claim))
  {
    assert Do(w, Claim) == w.(pass := Peeking(w.pass.now));
    ClaimLostFits(w);
  }

  lemma TakeFitsSlots(w: World, s: nat, k: nat)
    requires SlotsOk(w) && w.pass.TakingWaker? && s == w.pass.slot && s in w.slots && w.slots[s].state == Fired
    ensures SlotsOk(Took(w, s, k))
  {
    var v := Took(w, s, k);
    assert Held(v) == Held(w);
    forall t | t in v.slots ensures SlotOk(v, t) {
      assert SlotOk(w, t);
    }
  }

  lemma TakeFitsSleeps(w: World, s: nat, k: nat)
    requires SleepsOk(w) && w.pass.TakingWaker? && s == w.pass.slot && s in w.slots
    requires w.slots[s].state == Fired && w.slots[s].waker == Some(k)
    ensures SleepsOk(Took(w, s, k))
  {
    var v := Took(w, s, k);
    forall id | id in v.sleeps ensures SleepFits(id, v.sleeps[id], v.slots, v.pass, v.log) {
      assert SleepFits(id, w.sleeps[id], w.slots, w.pass, w.log);
    }
  }

  lemma TakeFitsLog(w: World, s: nat, k: nat)
    requires LogOk(w) && w.pass.TakingWaker? && s == w.pass.slot && s in w.slots
    ensures LogOk(Took(w, s, k))
  {
  }

  /** The claimed slot always still holds a waker, so a fire always wakes. */
  lemma TakeWakerKeeps(w: World)
    requires Inv(w) && Enabled(w, TakeWaker)
    ensures Do(w, TakeWaker).pass.Waking? && Inv(Do(w, TakeWaker))
  {
    var s, k := w.pass.slot, w.slots[w.pass.slot].waker.value;
    assert Do(w, TakeWaker) == Took(w, s, k);
    TakeFitsSlots(w, s, k);
    TakeFitsSleeps(w, s, k);
    TakeFitsLog(w, s, k);
    assert AboutToUnpark(w) ==> AboutToUnpark(Took(w, s, k));
  }

  lemma LoggingKeeps(log: seq<Wakeup>, x: Wakeup, s: nat, k: nat)
    ensures Logged(log + [x], s) <==> Logged(log, s) || x.slot == s
    ensures LoggedFor(log + [x], s, k) <==> LoggedFor(log, s, k) || (x.slot == s && x.waker == k)
  {
    var more := log + [x];
    assert more[|log|] == x;
    assert forall i :: 0 <= i < |log| ==> more[i] == log[i];
  }

  lemma WakeFitsSlots(w: World)
    requires SlotsOk(w) && w.pass.Waking?
    ensures SlotsOk(Woke(w))
  {
    var v, x := Woke(w), Wakeup(w.pass.slot, w.pass.waker, w.pass.now);
    assert Held(v) == Held(w);
    forall t | t in v.slots ensures SlotOk(v, t) {
      assert SlotOk(w, t);
      LoggingKeeps(w.log, x, t, x.waker);
    }
  }

  lemma WakeFitsSleeps(w: World)
    requires SleepsOk(w) && w.pass.Waking?
    ensures SleepsOk(Woke(w))
  {
    var v, x := Woke(w), Wakeup(w.pass.slot, w.pass.waker, w.pass.now);
    forall id | id in v.sleeps ensures SleepFits(id, v.sleeps[id], v.slots, v.pass, v.log) {
      var sleep := w.sleeps[id];
      assert SleepFits(id, sleep, w.slots, w.pass, w.log);
      if sleep.slot.Some? && sleep.phase.Resting? && sleep.phase.waiting.Some? {
        LoggingKeeps(w.log, x, sleep.slot.value, sleep.phase.waiting.value);
      }
    }
  }

  lemma WakeFitsLog(w: World)
    requires LogOk(w) && w.pass.Waking?
    ensures LogOk(Woke(w))
  {
    var v := Woke(w);
    assert v.log[|w.log|].slot == w.pass.slot;
    assert forall i :: 0 <= i < |w.log| ==> v.log[i] == w.log[i];
    assert forall i :: 0 <= i < |w.log| ==> w.log[i].slot != w.pass.slot;
  }

  lemma WakeKeeps(w: World)
    requires Inv(w) && Enabled(w, Wake)
    ensures Inv(Do(w, Wake))
  {
    WakeFitsSlots(w);
    WakeFitsSleeps(w);
    WakeFitsLog(w);
    assert AboutToUnpark(w) ==> AboutToUnpark(Woke(w));
  }

  // ---------------------------------------------- steps of a sleep's poll

  lemma UnparkersStay(w: World, v: World, id: nat)
    requires forall other :: other in w.sleeps && other != id ==> other in v.sleeps && v.sleeps[other] == w.sleeps[other]
    requires id in w.sleeps ==> !Announces(w.sleeps[id].phase)
    ensures AboutToUnpark(w) ==> AboutToUnpark(v)
  {
    if AboutToUnpark(w) {
      var other :| other in w.sleeps && Announces(w.sleeps[other].phase);
      assert Announces(v.sleeps[other].phase);
    }
  }

  /** What a sleep does leaves the alarm thread's own bookkeeping alone. */
  lemma ThreadSideKeeps(w: World, v: World)
    requires LogOk(w) && HeapAhead(w) && CounterCovers(w)
    requires v.pass == w.pass && v.heap == w.heap && v.log == w.log && w.cancelled <= v.cancelled
    requires forall s :: s in w.slots ==>
               && s in v.slots
               && v.slots[s].deadline == w.slots[s].deadline
               && (w.slots[s].state == Fired ==> v.slots[s].state == Fired)
               && (w.slots[s].state == Fired && w.slots[s].waker.Some? ==> v.slots[s].waker.Some?)
    ensures LogOk(v) && HeapAhead(v) && CounterCovers(v)
  {
  }

  /** A step of one sleep touches only that sleep and the slots it made. */
  lemma OneMoves(w: World, v: World, id: nat)
    requires SlotsOk(w) && SleepsOk(w)
    requires v.pass == w.pass && v.log == w.log
    requires id in v.sleeps && v.sleeps == w.sleeps[id := v.sleeps[id]]
    requires forall t :: t in w.slots ==> t in v.slots && v.slots[t].owner == w.slots[t].owner
    requires forall t :: t in v.slots && v.slots[t].owner != id ==>
               t in w.slots && v.slots[t] == w.slots[t] && Held(v)[t] == Held(w)[t]
    requires forall t :: t in v.slots && v.slots[t].owner == id ==> SlotOk(v, t)
    requires forall t :: t in Held(v) ==> t in v.slots
    requires SleepFits(id, v.sleeps[id], v.slots, v.pass, v.log)
    ensures SlotsOk(v) && SleepsOk(v)
  {
    forall t | t in v.slots ensures SlotOk(v, t) {
      assert t in w.slots ==> SlotOk(w, t);
    }
    forall other | other in v.sleeps ensures SleepFits(other, v.sleeps[other], v.slots, v.pass, v.log) {
      if other != id {
        SleepUntouched(other, w.sleeps[other], w.slots, v.slots, w.pass, w.log);
      }
    }
  }

  lemma SleepUntouched(id: nat, sleep: Sleep, before: map<nat, Slot>, after: map<nat, Slot>, pass: Pass, log: seq<Wakeup>)
    requires SleepFits(id, sleep, before, pass, log)
    requires forall s :: s in before && before[s].owner == id ==> s in after && after[s] == before[s]
    ensures SleepFits(id, sleep, after, pass, log)
  {
  }

  predicate Polling(phase: Phase) {
    !phase.Unparking? && !phase.Clearing? && !phase.Noting? && !phase.Gone?
  }

  /** A sleep that only moves on inside its own poll disturbs nobody. */
  lemma TurnFits(w: World, id: nat, phase: Phase)
    requires SlotsOk(w) && SleepsOk(w) && id in w.sleeps
    requires Polling(w.sleeps[id].phase) && Polling(phase)
    requires SleepFits(id, w.sleeps[id].(phase := phase), w.slots, w.pass, w.log)
    ensures SlotsOk(Enter(w, id, phase)) && SleepsOk(Enter(w, id, phase))
  {
    var v := Enter(w, id, phase);
    assert Held(v) == Held(w);
    forall t | t in v.slots && v.slots[t].owner == id ensures SlotOk(v, t) {
      assert SlotOk(w, t);
    }
    OneMoves(w, v, id);
  }

  lemma TurnKeeps(w: World, id: nat, phase: Phase)
    requires Inv(w) && id in w.sleeps
    requires Polling(w.sleeps[id].phase) && Polling(phase)
    requires SleepFits(id, w.sleeps[id].(phase := phase), w.slots, w.pass, w.log)
    ensures Inv(Enter(w, id, phase))
  {
    TurnFits(w, id, phase);
    UnparkersStay(w, Enter(w, id, phase), id);
    ThreadSideKeeps(w, Enter(w, id, phase));
  }

  lemma EnteringKeeps(w: World, id: nat, k: nat)
    requires Inv(w) && Enabled(w, Poll(id, k))
    ensures Inv(Do(w, Poll(id, k)))
  {
    assert SleepFits(id, w.sleeps[id], w.slots, w.pass, w.log);
    TurnKeeps(w, id, Entered(k));
  }

  lemma ClockKeeps(w: World, id: nat, now: int)
    requires Inv(w) && Enabled(w, PollClock(id, now))
    ensures Inv(Do(w, PollClock(id, now)))
  {
    var k := w.sleeps[id].phase.waker;
    assert SleepFits(id, w.sleeps[id], w.slots, w.pass, w.log);
    if now >= w.sleeps[id].deadline {
      TurnKeeps(w, id, Done);
    } else if w.sleeps[id].slot.None? {
      TurnKeeps(w, id, Registering(k));
    } else {
      TurnKeeps(w, id, Behind(k));
    }
  }

  lemma FlagKeeps(w: World, id: nat)
    requires Inv(w) && Enabled(w, PollFlag(id))
    ensures Inv(Do(w, PollFlag(id)))
  {
    assert SleepFits(id, w.sleeps[id], w.slots, w.pass, w.log);
    if Flag(w, id) == Some(Fired) {
      TurnKeeps(w, id, Done);
    } else {
      TurnKeeps(w, id, Choosing(w.sleeps[id].phase.waker));
    }
  }

  lemma ChooseKeeps(w: World, id: nat)
    requires Inv(w) && Enabled(w, Choose(id))
    ensures Inv(Do(w, Choose(id)))
  {
    var k := w.sleeps[id].phase.waker;
    assert SleepFits(id, w.sleeps[id], w.slots, w.pass, w.log);
    if Flag(w, id) == Some(Armed) {
      TurnKeeps(w, id, Replacing(k));
    } else {
      TurnKeeps(w, id, Registering(k));
    }
  }

  lemma RecheckingFits(id: nat, sleep: Sleep, slots: map<nat, Slot>, pass: Pass, log: seq<Wakeup>)
    requires SleepFits(id, sleep, slots, pass, log) && sleep.phase.Rechecking?
    ensures SleepFits(id, sleep.(phase := Done), slots, pass, log)
    ensures SleepFits(id, sleep.(phase := RecheckingFlag(sleep.phase.waker)), slots, pass, log)
  {
  }

  lemma RecheckClockKeeps(w: World, id: nat, now: int)
    requires Inv(w) && Enabled(w, RecheckClock(id, now))
    ensures Inv(Do(w, RecheckClock(id, now)))
  {
    RecheckingFits(id, w.sleeps[id], w.slots, w.pass, w.log);
    if now >= w.sleeps[id].deadline {
      TurnKeeps(w, id, Done);
    } else {
      TurnKeeps(w, id, RecheckingFlag(w.sleeps[id].phase.waker));
    }
  }

  lemma RecheckFlagKeeps(w: World, id: nat)
    requires Inv(w) && Enabled(w, RecheckFlag(id))
    ensures Inv(Do(w, RecheckFlag(id)))
  {
    assert SleepFits(id, w.sleeps[id], w.slots, w.pass, w.log);
    if Flag(w, id) == Some(Fired) {
      TurnKeeps(w, id, Done);
    } else {
      TurnKeeps(w, id, Resting(Some(w.sleeps[id].phase.waker)));
    }
  }

  lemma CreateFits(w: World, id: nat, deadline: int)
    requires SlotsOk(w) && SleepsOk(w) && id !in w.sleeps
    ensures SlotsOk(w.(sleeps := w.sleeps[id := Sleep(deadline, None, Resting(None))])) && SleepsOk(w.(sleeps := w.sleeps[id := Sleep(deadline, None, Resting(None))]))
  {
    var v := w.(sleeps := w.sleeps[id := Sleep(deadline, None, Resting(None))]);
    assert Held(v) == Held(w);
    assert forall t :: t in w.slots ==> SlotOk(w, t) && w.slots[t].owner != id;
    OneMoves(w, v, id);
  }

  lemma CreateKeeps(w: World, id: nat, deadline: int)
    requires Inv(w) && id !in w.sleeps
    ensures Inv(w.(sleeps := w.sleeps[id := Sleep(deadline, None, Resting(None))]))
  {
    var v := w.(sleeps := w.sleeps[id := Sleep(deadline, None, Resting(None))]);
    CreateFits(w, id, deadline);
    UnparkersStay(w, v, id);
    ThreadSideKeeps(w, v);
  }

  /** The waker of whoever waits now goes into the slot, which may have fired
      meanwhile; the second look at the flag is what makes that safe. */
  lemma ReplaceFits(w: World, id: nat, s: nat, k: nat)
    requires SlotsOk(w) && SleepsOk(w) && id in w.sleeps
    requires w.sleeps[id].phase == Replacing(k) && w.sleeps[id].slot == Some(s) && s in w.slots
    ensures SlotsOk(Replaced(w, id, s, k)) && SleepsOk(Replaced(w, id, s, k))
  {
    var v := Replaced(w, id, s, k);
    assert SleepFits(id, w.sleeps[id], w.slots, w.pass, w.log);
    assert Held(v) == Held(w);
    forall t | t in v.slots && v.slots[t].owner == id ensures SlotOk(v, t) {
      assert SlotOk(w, t);
    }
    OneMoves(w, v, id);
  }

  lemma ReplaceKeeps(w: World, id: nat, s: nat, k: nat)
    requires Inv(w) && id in w.sleeps
    requires w.sleeps[id].phase == Replacing(k) && w.sleeps[id].slot == Some(s) && s in w.slots
    ensures Inv(Replaced(w, id, s, k))
  {
    var v := Replaced(w, id, s, k);
    ReplaceFits(w, id, s, k);
    UnparkersStay(w, v, id);
    ThreadSideKeeps(w, v);
  }

  /** A sleep registers only when nothing it registered before can still be
      answered through this poll. */
  lemma OnlyFiredBefore(w: World, id: nat)
    requires Inv(w) && id in w.sleeps && w.sleeps[id].phase.Registering?
    ensures forall t :: t in w.slots && w.slots[t].owner == id ==> w.slots[t].state == Fired
  {
    assert SleepFits(id, w.sleeps[id], w.slots, w.pass, w.log);
    assert forall t :: t in w.slots ==> SlotOk(w, t);
  }

  lemma RegisterFitsSlots(w: World, id: nat, s: nat, k: nat)
    requires Inv(w) && id in w.sleeps
    requires w.sleeps[id].phase == Registering(k) && s !in w.slots
    ensures Held(Registered(w, id, s, k)) == Held(w) + multiset{s}
    ensures forall t :: t in Registered(w, id, s, k).slots && Registered(w, id, s, k).slots[t].owner == id ==>
              SlotOk(Registered(w, id, s, k), t)
  {
    var v := Registered(w, id, s, k);
    OnlyFiredBefore(w, id);
    assert s !in Held(w) && Held(v) == Held(w) + multiset{s};
    forall t | t in v.slots && v.slots[t].owner == id ensures SlotOk(v, t) {
      if t != s {
        assert SlotOk(w, t) && v.slots[t] == w.slots[t] && Held(v)[t] == Held(w)[t];
      }
    }
  }

  lemma RegisterFitsSleep(w: World, id: nat, s: nat, k: nat)
    requires SleepsOk(w) && id in w.sleeps
    requires w.sleeps[id].phase == Registering(k) && s !in w.slots
    ensures var v := Registered(w, id, s, k); SleepFits(id, v.sleeps[id], v.slots, v.pass, v.log)
  {
    assert SleepFits(id, w.sleeps[id], w.slots, w.pass, w.log);
  }

  lemma RegisterFits(w: World, id: nat, s: nat, k: nat)
    requires Inv(w) && id in w.sleeps
    requires w.sleeps[id].phase == Registering(k) && s !in w.slots
    ensures SlotsOk(Registered(w, id, s, k)) && SleepsOk(Registered(w, id, s, k))
  {
    RegisterFitsSleep(w, id, s, k);
    RegisterFitsSlots(w, id, s, k);
    OneMoves(w, Registered(w, id, s, k), id);
  }

  lemma RegisterAnnounces(w: World, id: nat, s: nat, k: nat)
    requires ArrivalsAnnounced(w) && id in w.sleeps && w.sleeps[id].phase.Registering?
    ensures ArrivalsAnnounced(Registered(w, id, s, k))
  {
    var v := Registered(w, id, s, k);
    assert w.published ==> Announces(v.sleeps[id].phase);
  }

  lemma RegisterKeeps(w: World, id: nat, s: nat, k: nat)
    requires Inv(w) && id in w.sleeps
    requires w.sleeps[id].phase == Registering(k) && s !in w.slots
    ensures Inv(Registered(w, id, s, k))
  {
    RegisterFits(w, id, s, k);
    RegisterAnnounces(w, id, s, k);
    ThreadSideKeeps(w, Registered(w, id, s, k));
  }

  lemma UnparkFits(w: World, id: nat, s: nat, k: nat, known: bool)
    requires SlotsOk(w) && SleepsOk(w) && id in w.sleeps
    requires w.sleeps[id].phase == Unparking(k, s, known)
    ensures SlotsOk(Unparked(w, id, s, k, known)) && SleepsOk(Unparked(w, id, s, k, known))
  {
    var v := Unparked(w, id, s, k, known);
    assert SleepFits(id, w.sleeps[id], w.slots, w.pass, w.log);
    assert Held(v) == Held(w);
    forall t | t in v.slots && v.slots[t].owner == id ensures SlotOk(v, t) {
      assert SlotOk(w, t);
    }
    OneMoves(w, v, id);
  }

  lemma UnparkKeeps(w: World, id: nat, s: nat, k: nat, known: bool)
    requires Inv(w) && id in w.sleeps
    requires w.sleeps[id].phase == Unparking(k, s, known)
    ensures Inv(Unparked(w, id, s, k, known))
  {
    var v := Unparked(w, id, s, k, known);
    UnparkFits(w, id, s, k, known);
    if !known {
      UnparkersStay(w, v, id);
    }
    ThreadSideKeeps(w, v);
  }

  // ---------------------------------------------- steps of a sleep's drop

  lemma DropArmedFits(w: World, id: nat, s: nat)
    requires SlotsOk(w) && SleepsOk(w) && id in w.sleeps
    requires w.sleeps[id].phase.Resting? || w.sleeps[id].phase.Done?
    requires w.sleeps[id].slot == Some(s) && s in w.slots && w.slots[s].state == Armed
    ensures SlotsOk(DroppedArmed(w, id, s)) && SleepsOk(DroppedArmed(w, id, s))
  {
    var v := DroppedArmed(w, id, s);
    assert SleepFits(id, w.sleeps[id], w.slots, w.pass, w.log);
    assert Held(v) == Held(w);
    forall t | t in v.slots && v.slots[t].owner == id ensures SlotOk(v, t) {
      assert SlotOk(w, t);
    }
    OneMoves(w, v, id);
  }

  lemma DropArmedKeeps(w: World, id: nat, s: nat)
    requires Inv(w) && id in w.sleeps
    requires w.sleeps[id].phase.Resting? || w.sleeps[id].phase.Done?
    requires w.sleeps[id].slot == Some(s) && s in w.slots && w.slots[s].state == Armed
    ensures Inv(DroppedArmed(w, id, s))
  {
    var v := DroppedArmed(w, id, s);
    DropArmedFits(w, id, s);
    UnparkersStay(w, v, id);
    ThreadSideKeeps(w, v);
  }

  lemma DropIdleFits(w: World, id: nat)
    requires SlotsOk(w) && SleepsOk(w) && id in w.sleeps
    requires w.sleeps[id].phase.Resting? || w.sleeps[id].phase.Done?
    requires Flag(w, id) != Some(Armed)
    ensures SlotsOk(DroppedIdle(w, id)) && SleepsOk(DroppedIdle(w, id))
  {
    var v := DroppedIdle(w, id);
    assert SleepFits(id, w.sleeps[id], w.slots, w.pass, w.log);
    assert Held(v) == Held(w);
    forall t | t in v.slots && v.slots[t].owner == id ensures SlotOk(v, t) {
      assert SlotOk(w, t);
    }
    OneMoves(w, v, id);
  }

  lemma DropIdleKeeps(w: World, id: nat)
    requires Inv(w) && id in w.sleeps
    requires w.sleeps[id].phase.Resting? || w.sleeps[id].phase.Done?
    requires Flag(w, id) != Some(Armed)
    ensures Inv(DroppedIdle(w, id))
  {
    var v := DroppedIdle(w, id);
    DropIdleFits(w, id);
    UnparkersStay(w, v, id);
    ThreadSideKeeps(w, v);
  }

  lemma ClearWakerFits(w: World, id: nat, s: nat)
    requires SlotsOk(w) && SleepsOk(w) && id in w.sleeps
    requires w.sleeps[id].phase == Clearing(s) && s in w.slots
    ensures SlotsOk(Cleared(w, id, s)) && SleepsOk(Cleared(w, id, s))
  {
    var v := Cleared(w, id, s);
    assert SleepFits(id, w.sleeps[id], w.slots, w.pass, w.log);
    assert Held(v) == Held(w);
    forall t | t in v.slots && v.slots[t].owner == id ensures SlotOk(v, t) {
      assert SlotOk(w, t);
    }
    OneMoves(w, v, id);
  }

  lemma ClearWakerKeeps(w: World, id: nat, s: nat)
    requires Inv(w) && id in w.sleeps
    requires w.sleeps[id].phase == Clearing(s) && s in w.slots
    ensures Inv(Cleared(w, id, s))
  {
    var v := Cleared(w, id, s);
    assert SleepFits(id, w.sleeps[id], w.slots, w.pass, w.log);
    ClearWakerFits(w, id, s);
    UnparkersStay(w, v, id);
    ThreadSideKeeps(w, v);
  }

  lemma NoteDropFits(w: World, id: nat, s: nat)
    requires SlotsOk(w) && SleepsOk(w) && id in w.sleeps
    requires w.sleeps[id].phase == Noting(s)
    ensures SlotsOk(Noted(w, id)) && SleepsOk(Noted(w, id))
  {
    var v := Noted(w, id);
    assert SleepFits(id, w.sleeps[id], w.slots, w.pass, w.log);
    assert Held(v) == Held(w);
    forall t | t in v.slots && v.slots[t].owner == id ensures SlotOk(v, t) {
      assert SlotOk(w, t);
    }
    OneMoves(w, v, id);
  }

  lemma NoteDropKeeps(w: World, id: nat, s: nat)
    requires Inv(w) && id in w.sleeps
    requires w.sleeps[id].phase == Noting(s)
    ensures Inv(Noted(w, id))
  {
    var v := Noted(w, id);
    NoteDropFits(w, id, s);
    UnparkersStay(w, v, id);
    ThreadSideKeeps(w, v);
  }

  // -------------------------------------------------------- whole runs

  predicate OfAlarmThread(step: Step) {
    OfItsWait(step) || OfAFire(step) || OfASweep(step)
  }

  predicate OfItsWait(step: Step) {
    match step
    case Publish | Collect | ReadClock(_) | Park(_) | Resume(_) => true
    case _ => false
  }

  predicate OfAFire(step: Step) {
    match step
    case Pop(_) | StopPeeking | Claim | TakeWaker | Wake => true
    case _ => false
  }

  predicate OfASweep(step: Step) {
    match step
    case CountCancelled | Sweep(_) | EndSweep | Subtract => true
    case _ => false
  }

  lemma WaitStepKeepsInv(w: World, step: Step)
    requires Inv(w) && Enabled(w, step) && OfItsWait(step)
    ensures Inv(Do(w, step))
  {
    match step
    case Publish => PublishKeeps(w);
    case Collect => CollectKeeps(w);
    case ReadClock(now) => ReadClockKeeps(w, now);
    case Park(until) => ParkKeeps(w, until);
    case Resume(consume) => ResumeKeeps(w, consume);
  }

  lemma FireStepKeepsInv(w: World, step: Step)
    requires Inv(w) && Enabled(w, step) && OfAFire(step)
    ensures Inv(Do(w, step))
  {
    match step
    case Pop(s) => PopKeeps(w, s);
    case StopPeeking => StopPeekingKeeps(w);
    case Claim => if w.slots[w.pass.slot].state == Armed { ClaimWonKeeps(w, w.pass.slot); } else { ClaimLostKeeps(w); }
    case TakeWaker => TakeWakerKeeps(w);
    case Wake => WakeKeeps(w);
  }

  lemma SweepStepKeepsInv(w: World, step: Step)
    requires Inv(w) && Enabled(w, step) && OfASweep(step)
    ensures Inv(Do(w, step))
  {
    match step
    case CountCancelled => SkipSweepKeeps(w); BeginSweepKeeps(w);
    case Sweep(s) => if w.slots[s].state == Armed { SweepKeptKeeps(w, s); } else { SweepDroppedKeeps(w, s); }
    case EndSweep => EndSweepKeeps(w);
    case Subtract => SubtractKeeps(w);
  }

  predicate OfADrop(step: Step) {
    step.Create? || step.Drop? || step.ClearWaker? || step.NoteDrop?
  }

  lemma PollStepKeepsInv(w: World, step: Step)
    requires Inv(w) && Enabled(w, step) && !OfAlarmThread(step) && !OfADrop(step)
    ensures Inv(Do(w, step))
  {
    match step
    case Poll(id, k) => EnteringKeeps(w, id, k);
    case PollClock(id, now) => ClockKeeps(w, id, now);
    case PollFlag(id) => FlagKeeps(w, id);
    case Choose(id) => ChooseKeeps(w, id);
    case Replace(id) => ReplaceKeeps(w, id, w.sleeps[id].slot.value, w.sleeps[id].phase.waker);
    case Register(id, s) => RegisterKeeps(w, id, s, w.sleeps[id].phase.waker);
    case Unpark(id) =>
      var p := w.sleeps[id].phase;
      UnparkKeeps(w, id, p.made, p.waker, p.known);
    case RecheckClock(id, now) => RecheckClockKeeps(w, id, now);
    case RecheckFlag(id) => RecheckFlagKeeps(w, id);
  }

  lemma DropStepKeepsInv(w: World, step: Step)
    requires Inv(w) && Enabled(w, step) && OfADrop(step)
    ensures Inv(Do(w, step))
  {
    match step
    case Create(id, deadline) => CreateKeeps(w, id, deadline);
    case Drop(id) =>
      if Flag(w, id) == Some(Armed) {
        DropArmedKeeps(w, id, w.sleeps[id].slot.value);
      } else {
        DropIdleKeeps(w, id);
      }
    case ClearWaker(id) => ClearWakerKeeps(w, id, w.sleeps[id].phase.slotId);
    case NoteDrop(id) => NoteDropKeeps(w, id, w.sleeps[id].phase.slotId);
  }

  lemma NextKeepsInv(w: World, v: World)
    requires Inv(w) && Next(w, v)
    ensures Inv(v)
  {
    var step :| Enabled(w, step) && v == Do(w, step);
    if OfItsWait(step) {
      WaitStepKeepsInv(w, step);
    } else if OfAFire(step) {
      FireStepKeepsInv(w, step);
    } else if OfASweep(step) {
      SweepStepKeepsInv(w, step);
    } else if OfADrop(step) {
      DropStepKeepsInv(w, step);
    } else {
      PollStepKeepsInv(w, step);
    }
  }

  lemma InitialIsFine()
    ensures Inv(INITIAL)
  {
  }

  lemma {:induction false} RunsKeep(run: seq<World>, i: nat)
    requires IsRun(run) && i < |run|
    ensures Inv(run[i])
  {
    if i == 0 {
      InitialIsFine();
    } else {
      RunsKeep(run, i - 1);
      assert Linked(run, i);
      NextKeepsInv(run[i - 1], run[i]);
    }
  }

  predicate Settled(w: World, s: nat, state: SlotState) {
    s in w.slots && w.slots[s].state == state && state != Armed
  }

  lemma AlarmStepSettles(w: World, step: Step, s: nat, state: SlotState)
    requires Enabled(w, step) && OfAlarmThread(step) && Settled(w, s, state)
    ensures Settled(Do(w, step), s, state)
  {
  }

  lemma SleepStepSettles(w: World, step: Step, s: nat, state: SlotState)
    requires Enabled(w, step) && !OfAlarmThread(step) && Settled(w, s, state)
    ensures Settled(Do(w, step), s, state)
  {
  }

  /** Fired and cancelled are final. */
  lemma NextSettles(w: World, v: World, s: nat, state: SlotState)
    requires Next(w, v) && Settled(w, s, state)
    ensures Settled(v, s, state)
  {
    var step :| Enabled(w, step) && v == Do(w, step);
    if OfAlarmThread(step) {
      AlarmStepSettles(w, step, s, state);
    } else {
      SleepStepSettles(w, step, s, state);
    }
  }

  lemma {:induction false} SettledStays(run: seq<World>, i: nat, j: nat, s: nat, state: SlotState)
    requires IsRun(run) && i <= j < |run|
    requires Settled(run[i], s, state)
    ensures Settled(run[j], s, state)
    decreases j
  {
    if i == j {
    } else {
      SettledStays(run, i, j - 1, s, state);
      assert Linked(run, j);
      NextSettles(run[j - 1], run[j], s, state);
    }
  }

  // ------------------------------------------------------- main theorems

  /** The slot still waits, with this waker stored, in exactly one of the
      arrivals, the heap and the alarm thread's hand. */
  predicate Waiting(w: World, s: nat, k: nat) {
    && s in w.slots
    && w.slots[s].state == Armed
    && w.slots[s].waker == Some(k)
    && w.arrivals[s] + w.heap[s] + InHand(w.pass)[s] == 1
  }

  /** The slot fired, and this waker is being woken or was. */
  ghost predicate Answered(w: World, s: nat, k: nat) {
    && s in w.slots
    && w.slots[s].state == Fired
    && Answering(w.pass, w.log, s, w.slots[s].waker, k)
  }

  /** No lost wakeup: a sleep whose last poll returned Pending is waiting with
      that poll's waker, or that very waker is being woken or was. */
  lemma NoLostWakeup(run: seq<World>, i: nat, id: nat, k: nat)
    requires IsRun(run) && i < |run|
    requires id in run[i].sleeps && run[i].sleeps[id].phase == Resting(Some(k))
    ensures run[i].sleeps[id].slot.Some?
    ensures Waiting(run[i], run[i].sleeps[id].slot.value, k) || Answered(run[i], run[i].sleeps[id].slot.value, k)
  {
    RunsKeep(run, i);
    var w := run[i];
    assert SleepFits(id, w.sleeps[id], w.slots, w.pass, w.log);
    assert SlotOk(w, w.sleeps[id].slot.value);
  }

  /** A sleep that was dropped while armed is never woken, then or later. */
  lemma DroppedIsNeverWoken(run: seq<World>, i: nat, j: nat, s: nat)
    requires IsRun(run) && i <= j < |run|
    requires s in run[i].slots && run[i].slots[s].state == Cancelled
    ensures s in run[j].slots && run[j].slots[s].state == Cancelled
    ensures !Logged(run[j].log, s) && !Delivering(run[j].pass, s)
  {
    assert Settled(run[i], s, Cancelled);
    SettledStays(run, i, j, s, Cancelled);
    RunsKeep(run, j);
    assert SlotOk(run[j], s);
  }

  /** Once its drop has returned, a cancelled registration holds no task. */
  lemma DroppedHoldsNoTask(run: seq<World>, i: nat, s: nat)
    requires IsRun(run) && i < |run|
    requires s in run[i].slots && run[i].slots[s].state == Cancelled
    ensures run[i].slots[s].owner in run[i].sleeps
    ensures run[i].sleeps[run[i].slots[s].owner].phase.Gone? ==> run[i].slots[s].waker == None
  {
    RunsKeep(run, i);
    assert SlotOk(run[i], s);
  }

  /** A registration still armed belongs to a sleep that still stands behind
      it: no live entry in the heap outlives its future. */
  lemma ArmedIsHeld(run: seq<World>, i: nat, s: nat)
    requires IsRun(run) && i < |run|
    requires s in run[i].slots && run[i].slots[s].state == Armed
    ensures run[i].slots[s].owner in run[i].sleeps
    ensures Current(run[i].sleeps[run[i].slots[s].owner]) == Some(s)
    ensures !run[i].sleeps[run[i].slots[s].owner].phase.Gone?
  {
    RunsKeep(run, i);
    var w := run[i];
    assert SlotOk(w, s);
    assert SleepFits(w.slots[s].owner, w.sleeps[w.slots[s].owner], w.slots, w.pass, w.log);
  }

  /** Each registration is answered at most once, by a reading of the alarm
      thread's clock at or past its deadline, and every fired one is answered. */
  lemma AnsweredOnceAndNotEarly(run: seq<World>, i: nat)
    requires IsRun(run) && i < |run|
    ensures forall a, b :: 0 <= a < b < |run[i].log| ==> run[i].log[a].slot != run[i].log[b].slot
    ensures forall a :: 0 <= a < |run[i].log| ==>
              && run[i].log[a].slot in run[i].slots
              && run[i].slots[run[i].log[a].slot].state == Fired
              && run[i].slots[run[i].log[a].slot].deadline <= run[i].log[a].now
    ensures forall s :: s in run[i].slots && run[i].slots[s].state == Fired ==>
              Delivering(run[i].pass, s) || Logged(run[i].log, s)
  {
    RunsKeep(run, i);
    assert forall s :: s in run[i].slots ==> SlotOk(run[i], s);
  }

  /** A pass fires everything it collected that is due. */
  lemma PassFiresWhatIsDue(run: seq<World>, i: nat, s: nat)
    requires IsRun(run) && i < |run|
    requires run[i].pass.Counting? || run[i].pass.Sweeping? || run[i].pass.Subtracting? || run[i].pass.Settling?
    requires s in run[i].slots && run[i].slots[s].state == Armed && s !in run[i].arrivals
    ensures run[i].slots[s].deadline > run[i].pass.now
  {
    RunsKeep(run, i);
    assert SlotOk(run[i], s);
  }

  /** The alarm thread never sleeps past a wait: while it is parked, either a
      wake is stored or about to be, or every armed registration is in the
      heap and the park ends by its deadline. */
  lemma ParkCoversEveryWait(run: seq<World>, i: nat, s: nat)
    requires IsRun(run) && i < |run|
    requires run[i].pass.Parked?
    requires s in run[i].slots && run[i].slots[s].state == Armed
    ensures
      || run[i].token
      || AboutToUnpark(run[i])
      || (s in run[i].heap && run[i].pass.until.Some? && run[i].pass.until.value <= run[i].slots[s].deadline)
  {
    RunsKeep(run, i);
    assert SlotOk(run[i], s);
  }

  /** The sweep's subtraction never takes the counter below zero. */
  lemma CounterNeverWraps(run: seq<World>, i: nat)
    requires IsRun(run) && i < |run| && run[i].pass.Subtracting?
    ensures run[i].pass.count <= run[i].cancelled
  {
    RunsKeep(run, i);
  }

  lemma {:induction false} EarliestExists(w: World)
    requires w.heap != multiset{} && forall t :: t in w.heap ==> t in w.slots
    ensures exists s :: Earliest(w, s)
    decreases |w.heap|
  {
    var s :| s in w.heap;
    var rest := w.(heap := w.heap - multiset{s});
    assert forall t :: t in w.heap ==> t == s || t in rest.heap;
    if rest.heap == multiset{} {
      assert Earliest(w, s);
    } else {
      EarliestExists(rest);
      var r :| Earliest(rest, r);
      assert Earliest(w, if w.slots[s].deadline <= w.slots[r].deadline then s else r);
    }
  }

  lemma HeapIsKnown(w: World)
    requires Inv(w)
    ensures forall t :: t in w.heap ==> t in w.slots
    ensures w.pass.Sweeping? ==> forall t :: t in w.pass.left ==> t in w.slots
    ensures w.pass.Holding? ==> w.pass.slot in w.slots
  {
    assert forall t :: t in w.heap ==> t in Held(w);
    assert w.pass.Sweeping? ==> forall t :: t in w.pass.left ==> t in Held(w);
  }

  lemma PeekMoves(w: World)
    requires Inv(w) && w.pass.Peeking?
    ensures Enabled(w, StopPeeking) || exists s :: Enabled(w, Pop(s))
  {
    HeapIsKnown(w);
    if w.heap != multiset{} {
      EarliestExists(w);
      var s :| Earliest(w, s);
      assert Enabled(w, Pop(s)) || Enabled(w, StopPeeking);
    }
  }

  lemma SettleMoves(w: World)
    requires Inv(w) && w.pass.Settling?
    ensures exists until :: Enabled(w, Park(until))
  {
    HeapIsKnown(w);
    if w.heap != multiset{} {
      EarliestExists(w);
      var s :| Earliest(w, s);
      assert Enabled(w, Park(Some(w.slots[s].deadline)));
    } else {
      assert Enabled(w, Park(None));
    }
  }

  lemma SweepMoves(w: World)
    requires Inv(w) && w.pass.Sweeping?
    ensures Enabled(w, EndSweep) || exists s :: Enabled(w, Sweep(s))
  {
    HeapIsKnown(w);
    if w.pass.left != multiset{} {
      var s :| s in w.pass.left;
      assert Enabled(w, Sweep(s));
    }
  }

  ghost predicate Movable(w: World) {
    exists step :: OfAlarmThread(step) && Enabled(w, step)
  }

  lemma Moves(w: World, step: Step)
    requires OfAlarmThread(step) && Enabled(w, step)
    ensures Movable(w)
  {
  }

  /** The alarm thread is never stuck: the entry it peeked at is there to pop,
      and whatever the sleeps do it always has a step to take. */
  lemma AlarmThreadMoves(run: seq<World>, i: nat)
    requires IsRun(run) && i < |run|
    ensures Movable(run[i])
  {
    RunsKeep(run, i);
    var w := run[i];
    HeapIsKnown(w);
    match w.pass
    case Starting => Moves(w, Publish);
    case Collecting => Moves(w, Collect);
    case ReadingClock => Moves(w, ReadClock(0));
    case Peeking(_) =>
      PeekMoves(w);
      if Enabled(w, StopPeeking) { Moves(w, StopPeeking); } else { var s :| Enabled(w, Pop(s)); Moves(w, Pop(s)); }
    case Holding(_, _) => Moves(w, Claim);
    case TakingWaker(_, _) => Moves(w, TakeWaker);
    case Waking(_, _, _) => Moves(w, Wake);
    case Counting(_) => Moves(w, CountCancelled);
    case Sweeping(_, _, _) =>
      SweepMoves(w);
      if Enabled(w, EndSweep) { Moves(w, EndSweep); } else { var s :| Enabled(w, Sweep(s)); Moves(w, Sweep(s)); }
    case Subtracting(_, _) => Moves(w, Subtract);
    case Settling(_) =>
      SettleMoves(w);
      var until :| Enabled(w, Park(until));
      Moves(w, Park(until));
    case Parked(_) => Moves(w, Resume(false));
  }
}
