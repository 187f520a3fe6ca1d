/**
  A realm's timer schedule: an index of armed timers beside a deadline heap
  whose entries are dropped lazily, and the nesting clamp of the HTML Standard.
 */
module Timers {
  import opened Options

  /** Nanoseconds on the realm's monotone clock. */
  type Instant = int

  const MAX_U32: nat := 0xFFFF_FFFF
  const MILLISECOND: nat := 1_000_000
  const CLAMPED_NESTING: nat := 5
  const CLAMPED_DELAY: nat := 4 * MILLISECOND
  const MAX_DELAY_MILLISECONDS: nat := 2_147_483_647

  /** The delay argument a realm passes: any double, read exactly. */
  datatype Number = NaN | NegativeInfinity | PositiveInfinity | Finite(value: real)

  datatype Timer = Timer(deadline: Instant, requested: nat, repeats: bool, nesting: nat)

  datatype DueTimer = DueTimer(id: nat, nesting: nat)

  /** One heap entry; the heap orders entries by `(deadline, id)`. */
  datatype Entry = Entry(deadline: Instant, id: nat)

  predicate Before(a: Entry, b: Entry) {
    a.deadline < b.deadline || (a.deadline == b.deadline && a.id <= b.id)
  }

  /** Whole milliseconds in `0 ..= MAX_DELAY_MILLISECONDS`, as nanoseconds. */
  function RequestedDelay(milliseconds: Number): (r: nat)
    ensures r <= MAX_DELAY_MILLISECONDS * MILLISECOND && r % MILLISECOND == 0
  {
    match milliseconds
    case NaN | NegativeInfinity | PositiveInfinity => 0
    case Finite(v) =>
      if v < 0.0 then 0
      else if v >= MAX_DELAY_MILLISECONDS as real then MAX_DELAY_MILLISECONDS * MILLISECOND
      else v.Floor * MILLISECOND
  }

  /** What HTML's `long` conversion leaves of a delay argument, in nanoseconds:
      the whole milliseconds of a number in range, the longest delay beyond it,
      and nothing of a number that is negative or not finite. */
  ghost predicate AskedFor(milliseconds: Number, asked: int) {
    match milliseconds
    case NaN => asked == 0
    case NegativeInfinity => asked == 0
    case PositiveInfinity => asked == 0
    case Finite(v) =>
      if v < 0.0 then asked == 0
      else if v > 2147483647.0 then asked == 2147483647_000000
      else asked % 1_000_000 == 0 && asked as real <= v * 1000000.0 < asked as real + 1000000.0
  }

  /** The wait of a timer set at a nesting level: what was asked for, but no
      less than 4 ms from the sixth level on. */
  ghost predicate IsWait(asked: int, nesting: nat, wait: int) {
    wait == if nesting <= 5 || asked >= 4_000_000 then asked else 4_000_000
  }

  lemma RequestedIsAsked(milliseconds: Number)
    ensures AskedFor(milliseconds, RequestedDelay(milliseconds))
  {
    match milliseconds
    case Finite(v) =>
      if 0.0 <= v < 2147483647.0 {
        assert v.Floor as real <= v < v.Floor as real + 1.0;
        assert (v.Floor * 1_000_000) as real == v.Floor as real * 1000000.0;
      }
    case _ =>
  }

  /** A delay argument asks for one delay. */
  lemma AskedOnce(milliseconds: Number, a: int, b: int)
    requires AskedFor(milliseconds, a) && AskedFor(milliseconds, b)
    ensures a == b
  {
  }

  lemma EffectiveIsWait(requested: nat, nesting: nat)
    ensures IsWait(requested, nesting, EffectiveDelay(requested, nesting))
  {
  }

  function EffectiveDelay(requested: nat, nesting: nat): nat {
    if nesting > CLAMPED_NESTING && requested < CLAMPED_DELAY then CLAMPED_DELAY else requested
  }

  function Deeper(nesting: nat): nat {
    if nesting >= MAX_U32 then MAX_U32 else nesting + 1
  }

  function NewTimer(milliseconds: Number, repeats: bool, nesting: nat, now: Instant): Timer {
    var requested := RequestedDelay(milliseconds);
    Timer(now + EffectiveDelay(requested, nesting), requested, repeats, Deeper(nesting))
  }

  function Rearmed(timer: Timer, now: Instant): Timer {
    Timer(now + EffectiveDelay(timer.requested, timer.nesting), timer.requested, true, Deeper(timer.nesting))
  }

  // ---------------------------------------------------------------------
  // The plain id-to-timer map the schedule is meant to behave as.

  type Armed = map<nat, Timer>

  function EntryOf(armed: Armed, id: nat): Entry
    requires id in armed
  {
    Entry(armed[id].deadline, id)
  }

  ghost predicate IsDue(armed: Armed, id: nat, now: Instant) {
    id in armed && armed[id].deadline <= now
  }

  ghost predicate IsEarliestDeadline(armed: Armed, r: Option<Instant>) {
    match r
    case None => armed == map[]
    case Some(d) =>
      && (exists id :: id in armed && armed[id].deadline == d)
      && (forall id :: id in armed ==> d <= armed[id].deadline)
  }

  /** What is armed once every timer due at `now` was taken. */
  ghost function AfterTake(armed: Armed, now: Instant): Armed {
    map id | id in armed && (armed[id].deadline <= now ==> armed[id].repeats) ::
      if armed[id].deadline <= now then Rearmed(armed[id], now) else armed[id]
  }

  /** `due` is every timer due at `now`, once each, by strictly rising `(deadline, id)`. */
  ghost predicate IsDueBatch(armed: Armed, now: Instant, due: seq<DueTimer>) {
    && (forall i :: 0 <= i < |due| ==> IsDue(armed, due[i].id, now) && due[i].nesting == armed[due[i].id].nesting)
    && (forall i, j :: 0 <= i < j < |due| ==>
          due[i].id != due[j].id && Before(EntryOf(armed, due[i].id), EntryOf(armed, due[j].id)))
    && (forall id :: IsDue(armed, id, now) ==> exists i :: 0 <= i < |due| && due[i].id == id)
  }

  /** The batch is a function of the map: nothing of the heap shows through. */
  lemma DueBatchUnique(armed: Armed, now: Instant, a: seq<DueTimer>, b: seq<DueTimer>)
    requires IsDueBatch(armed, now, a) && IsDueBatch(armed, now, b)
    ensures a == b
  {
    DueBatchPrefix(armed, now, a, b, |a|);
    DueBatchPrefix(armed, now, b, a, |b|);
    assert a == a[..|a|] && b == b[..|b|];
  }

  lemma {:induction false} DueBatchPrefix(armed: Armed, now: Instant, a: seq<DueTimer>, b: seq<DueTimer>, n: nat)
    requires IsDueBatch(armed, now, a) && IsDueBatch(armed, now, b)
    requires n <= |a|
    ensures n <= |b| && a[..n] == b[..n]
  {
    if n > 0 {
      var k := n - 1;
      DueBatchPrefix(armed, now, a, b, k);
      var i := NextInBatch(armed, now, a, b, k);
      var j := NextInBatch(armed, now, b, a, k);
      assert a[k].id == b[k].id;
      assert a[..n] == a[..k] + [a[k]] && b[..n] == b[..k] + [b[k]];
    }
  }

  lemma NextInBatch(armed: Armed, now: Instant, a: seq<DueTimer>, b: seq<DueTimer>, k: nat) returns (i: nat)
    requires IsDueBatch(armed, now, a) && IsDueBatch(armed, now, b)
    requires k < |a| && k <= |b| && a[..k] == b[..k]
    ensures k <= i < |b| && b[i].id == a[k].id
  {
    assert IsDue(armed, a[k].id, now);
    i :| 0 <= i < |b| && b[i].id == a[k].id;
    assert forall m :: 0 <= m < k ==> a[..k][m] == a[m] && b[..k][m] == b[m];
  }

  // ---------------------------------------------------------------------
  // The heap, as the contract of a binary heap over `(deadline, id)`.

  type Heap = multiset<Entry>

  function Peek(order: Heap): (top: Entry)
    requires order != multiset{}
    ensures top in order && forall e :: e in order ==> Before(top, e)
  {
    HeapHasTop(order);
    var top :| top in order && forall e :: e in order ==> Before(top, e);
    top
  }

  lemma HeapHasTop(order: Heap)
    requires order != multiset{}
    ensures exists top :: top in order && forall e :: e in order ==> Before(top, e)
  {
    var top := Top(order);
  }

  lemma {:induction false} Top(order: Heap) returns (top: Entry)
    requires order != multiset{}
    ensures top in order && forall e :: e in order ==> Before(top, e)
    decreases |order|
  {
    var any :| any in order;
    var rest := order - multiset{any};
    assert forall e :: e in order ==> e == any || e in rest;
    if rest == multiset{} {
      top := any;
    } else {
      top := Top(rest);
      if Before(any, top) {
        top := any;
      }
    }
  }

  /** How often a batch names `id`. */
  function Count(due: seq<DueTimer>, id: nat): nat {
    if due == [] then 0
    else Count(due[..|due| - 1], id) + if due[|due| - 1].id == id then 1 else 0
  }

  lemma CountSnoc(due: seq<DueTimer>, last: DueTimer, id: nat)
    ensures Count(due + [last], id) == Count(due, id) + if last.id == id then 1 else 0
  {
    assert (due + [last])[..|due|] == due;
  }

  /** How often `take_due` reports `id`: once per live heap entry while it repeats. */
  ghost function Reports(armed: Armed, order: Heap, now: Instant, id: nat): nat {
    if !IsDue(armed, id, now) then 0
    else if armed[id].repeats then order[EntryOf(armed, id)]
    else if EntryOf(armed, id) in order then 1 else 0
  }

  // ---------------------------------------------------------------------
  // Invariants of the schedule's three fields.

  /** Every armed timer has a heap entry: no arming is ever lost. */
  ghost predicate Indexed(armed: Armed, order: Heap) {
    forall id :: id in armed ==> 1 <= id <= MAX_U32 && EntryOf(armed, id) in order
  }

  /** No id has two heap entries: what holds while no id is handed out twice. */
  ghost predicate OneEntryPerId(order: Heap) {
    && (forall e :: e in order ==> order[e] == 1)
    && (forall e, f :: e in order && f in order && e.id == f.id ==> e == f)
  }

  /** Every id the heap names was handed out before `nextId`. */
  ghost predicate BelowNext(order: Heap, nextId: nat) {
    forall e :: e in order ==> e.id < nextId
  }

  class TimerSchedule {
    var armed: Armed
    var order: Heap
    var nextId: nat

    ghost predicate Valid()
      reads this
    {
      1 <= nextId <= MAX_U32 && Indexed(armed, order)
    }

    ghost predicate Clean()
      reads this
    {
      OneEntryPerId(order)
    }

    constructor ()
      ensures Valid() && Clean() && BelowNext(order, nextId)
      ensures armed == map[] && order == multiset{} && nextId == 1
    {
      armed, order, nextId := map[], multiset{}, 1;
    }

    /** Some id is free: what the search for one needs to end. */
    ghost predicate HasFreeId()
      reads this
    {
      exists id :: 1 <= id <= MAX_U32 && id !in armed
    }

    method AllocateId() returns (id: nat)
      requires Valid() && HasFreeId()
      modifies this`nextId
      ensures Valid()
      ensures 1 <= id <= MAX_U32 && id !in armed
      // Every id skipped on the way is held by an armed timer.
      ensures if old(nextId) <= id then forall k :: old(nextId) <= k < id ==> k in armed
              else forall k :: old(nextId) <= k <= MAX_U32 || 1 <= k < id ==> k in armed
      ensures nextId == if id == MAX_U32 then 1 else id + 1
    {
      ghost var free :| 1 <= free <= MAX_U32 && free !in armed;
      ghost var start := nextId;
      ghost var wrapped := false;
      while true
        invariant Valid()
        invariant !wrapped ==> start <= nextId && forall k :: start <= k < nextId ==> k in armed
        invariant wrapped ==> forall k :: start <= k <= MAX_U32 || 1 <= k < nextId ==> k in armed
        decreases if free >= nextId then free - nextId else free + MAX_U32 - nextId
      {
        id := nextId;
        nextId := if nextId == MAX_U32 then 1 else nextId + 1;
        if id != 0 && id !in armed {
          return;
        }
        wrapped := wrapped || id == MAX_U32;
      }
    }

    method Insert(id: nat, timer: Timer)
      modifies this`armed, this`order
      ensures armed == old(armed)[id := timer]
      ensures order == old(order) + multiset{Entry(timer.deadline, id)}
    {
      order := order + multiset{Entry(timer.deadline, id)};
      armed := armed[id := timer];
    }

    method Arm(milliseconds: Number, repeats: bool, nesting: nat, now: Instant) returns (id: nat)
      requires Valid() && HasFreeId()
      modifies this
      ensures Valid()
      ensures 1 <= id <= MAX_U32 && id !in old(armed)
      ensures armed == old(armed)[id := NewTimer(milliseconds, repeats, nesting, now)]
      ensures armed[id].repeats == repeats
      ensures exists asked :: AskedFor(milliseconds, asked) && IsWait(asked, nesting, armed[id].deadline - now)
      ensures order == old(order) + multiset{EntryOf(armed, id)}
      ensures nextId == if id == MAX_U32 then 1 else id + 1
      ensures old(nextId) !in old(armed) ==> id == old(nextId)
      // Until the counter has run through, the id was never handed out before.
      ensures old(BelowNext(order, nextId)) ==> id == old(nextId)
      ensures old(BelowNext(order, nextId)) && id < MAX_U32 ==> BelowNext(order, nextId)
      ensures old(Clean()) && (forall e :: e in old(order) ==> e.id != id) ==> Clean()
    {
      id := AllocateId();
      var requested := RequestedDelay(milliseconds);
      RequestedIsAsked(milliseconds);
      EffectiveIsWait(requested, nesting);
      Insert(id, Timer(now + EffectiveDelay(requested, nesting), requested, repeats, Deeper(nesting)));
      assert old(nextId) in old(armed) ==> EntryOf(old(armed), old(nextId)) in old(order);
    }

    method Clear(id: nat)
      requires Valid()
      modifies this`armed
      ensures Valid() && armed == old(armed) - {id}
    {
      armed := armed - {id};
    }

    method NextDeadline() returns (r: Option<Instant>)
      requires Valid()
      modifies this`order
      ensures Valid() && order <= old(order)
      ensures IsEarliestDeadline(armed, r)
      // Only leftovers were dropped.
      ensures forall id :: id in armed ==> order[EntryOf(armed, id)] == old(order)[EntryOf(armed, id)]
    {
      while true
        invariant Valid() && order <= old(order)
        invariant forall id :: id in armed ==> order[EntryOf(armed, id)] == old(order)[EntryOf(armed, id)]
        decreases |order|
      {
        assert forall id :: id in armed ==> EntryOf(armed, id) in order;
        if order == multiset{} {
          return None;
        }
        var top := Peek(order);
        if top.id in armed && armed[top.id].deadline == top.deadline {
          TopIsEarliest(armed, order, top);
          return Some(top.deadline);
        }
        LeftoverGoes(armed, order, top);
        order := order - multiset{top};
      }
    }

    /** Takes what is due: exactly the plain map's batch, unless a repeating
        timer that is due has a second live entry, when it is reported again. */
    method TakeDue(now: Instant) returns (due: seq<DueTimer>)
      requires Valid()
      modifies this`armed, this`order
      ensures Valid()
      ensures armed == AfterTake(old(armed), now)
      ensures ReportsCounted(old(armed), old(order), now, due)
      ensures IsDueBatch(old(armed), now, due) <==> SingleLiveEntries(old(armed), old(order), now)
      ensures old(Clean()) ==> Clean() && IsDueBatch(old(armed), now, due)
      ensures old(BelowNext(order, nextId)) ==> BelowNext(order, nextId)
    {
      var repeating;
      ghost var popped;
      due, repeating, popped := PopDue(now);
      TakeEnds(old(armed), old(order), order, popped, now, armed, due, nextId);
      Rearm(repeating);
    }

    /** The pop loop of a take, with the heap entries it popped. */
    method PopDue(now: Instant) returns (due: seq<DueTimer>, repeating: seq<(nat, Timer)>, ghost popped: Heap)
      modifies this`armed, this`order
      ensures Popped(old(order), order, popped, now)
      ensures order != multiset{} ==> Peek(order).deadline > now
      ensures Taken(old(armed), popped, now, armed, due)
      ensures repeating == RepeatsOf(old(armed), due, now)
    {
      due, repeating, popped := [], [], multiset{};
      while order != multiset{}
        invariant Popped(old(order), order, popped, now)
        invariant Taken(old(armed), popped, now, armed, due)
        invariant repeating == RepeatsOf(old(armed), due, now)
        decreases |order|
      {
        var top := Peek(order);
        if top.deadline > now {
          break;
        }
        PopTop(old(order), order, popped, now, top);
        order := order - multiset{top};
        ghost var before := popped;
        popped := popped + multiset{top};
        if top.id !in armed {
          TakeLeftover(old(armed), before, now, armed, due, top);
          continue;
        }
        var timer := armed[top.id];
        if timer.deadline != top.deadline {
          TakeLeftover(old(armed), before, now, armed, due, top);
          continue;
        }
        TakeLive(old(armed), before, now, armed, due, top);
        RepeatsSnoc(old(armed), due, DueTimer(top.id, timer.nesting), now);
        due, repeating := Report(top.id, now, due, repeating);
      }
    }

    /** The end of the loop's body: a live entry's timer is reported, and held
        back or forgotten. */
    method Report(id: nat, now: Instant, due: seq<DueTimer>, repeating: seq<(nat, Timer)>)
        returns (moreDue: seq<DueTimer>, moreRepeating: seq<(nat, Timer)>)
      requires id in armed
      modifies this`armed
      ensures moreDue == due + [DueTimer(id, old(armed)[id].nesting)]
      ensures armed == if old(armed)[id].repeats then old(armed) else old(armed) - {id}
      ensures moreRepeating == if old(armed)[id].repeats then repeating + [(id, Rearmed(old(armed)[id], now))] else repeating
    {
      var timer := armed[id];
      moreRepeating := repeating;
      if timer.repeats {
        moreRepeating := repeating + [(id, Timer(now + EffectiveDelay(timer.requested, timer.nesting),
                                                 timer.requested, true, Deeper(timer.nesting)))];
      } else {
        armed := armed - {id};
      }
      moreDue := due + [DueTimer(id, timer.nesting)];
    }

    /** The closing loop of a take: the repeats held back come in again. */
    method Rearm(repeating: seq<(nat, Timer)>)
      modifies this`armed, this`order
      ensures armed == WithRearms(old(armed), repeating)
      ensures order == old(order) + RearmEntries(repeating)
    {
      for i := 0 to |repeating|
        invariant armed == WithRearms(old(armed), repeating[..i])
        invariant order == old(order) + RearmEntries(repeating[..i])
      {
        var (id, timer) := repeating[i];
        assert repeating[..i + 1][..i] == repeating[..i];
        Insert(id, timer);
      }
      assert repeating[..|repeating|] == repeating;
    }
  }

  lemma TopIsEarliest(armed: Armed, order: Heap, top: Entry)
    requires Indexed(armed, order) && forall e :: e in order ==> Before(top, e)
    requires top.id in armed && armed[top.id].deadline == top.deadline
    ensures IsEarliestDeadline(armed, Some(top.deadline))
  {
    assert forall id :: id in armed ==> Before(top, EntryOf(armed, id));
  }

  lemma LeftoverGoes(armed: Armed, order: Heap, top: Entry)
    requires Indexed(armed, order) && (top.id !in armed || armed[top.id].deadline != top.deadline)
    ensures Indexed(armed, order - multiset{top})
    ensures forall id :: id in armed ==> (order - multiset{top})[EntryOf(armed, id)] == order[EntryOf(armed, id)]
  {
    assert forall id :: id in armed ==> EntryOf(armed, id) != top;
  }

  // ---------------------------------------------------------------------
  // What the pop loop of a take maintains.

  /** `popped` left the heap, in fire order and all of it due. */
  ghost predicate Popped(order0: Heap, order: Heap, popped: Heap, now: Instant) {
    && order0 == order + popped
    && (forall e :: e in popped ==> e.deadline <= now)
    && (forall e, f :: e in popped && f in order ==> Before(e, f))
  }

  lemma PopTop(order0: Heap, order: Heap, popped: Heap, now: Instant, top: Entry)
    requires Popped(order0, order, popped, now)
    requires top in order && top.deadline <= now && forall e :: e in order ==> Before(top, e)
    ensures Popped(order0, order - multiset{top}, popped + multiset{top}, now)
    ensures forall e :: e in popped ==> Before(e, top)
  {
  }

  /** No repeating timer that is due has a duplicate of its live entry. */
  ghost predicate SingleLiveEntries(armed: Armed, order: Heap, now: Instant) {
    forall id :: IsDue(armed, id, now) && armed[id].repeats ==> order[EntryOf(armed, id)] == 1
  }

  ghost function Untaken(armed: Armed, popped: Heap): Armed {
    map id | id in armed && (EntryOf(armed, id) in popped ==> armed[id].repeats) :: armed[id]
  }

  ghost predicate InFireOrder(armed: Armed, due: seq<DueTimer>) {
    && (forall i :: 0 <= i < |due| ==> due[i].id in armed && due[i].nesting == armed[due[i].id].nesting)
    && (forall i, j :: 0 <= i < j < |due| ==> Before(EntryOf(armed, due[i].id), EntryOf(armed, due[j].id)))
  }

  ghost predicate ReportsCounted(armed: Armed, order: Heap, now: Instant, due: seq<DueTimer>) {
    forall id :: Count(due, id) == Reports(armed, order, now, id)
  }

  /** The state a take is in once `popped` left the heap. */
  ghost predicate Taken(armed0: Armed, popped: Heap, now: Instant, armed: Armed, due: seq<DueTimer>) {
    && armed == Untaken(armed0, popped)
    && InFireOrder(armed0, due)
    && (forall i :: 0 <= i < |due| ==> EntryOf(armed0, due[i].id) in popped)
    && ReportsCounted(armed0, popped, now, due)
  }

  lemma TakeLeftover(armed0: Armed, popped: Heap, now: Instant, armed: Armed, due: seq<DueTimer>, top: Entry)
    requires Taken(armed0, popped, now, armed, due)
    requires top.id !in armed || armed[top.id].deadline != top.deadline
    ensures Taken(armed0, popped + multiset{top}, now, armed, due)
  {
    forall id | id in armed0 && EntryOf(armed0, id) == top
      ensures top in popped && !armed0[id].repeats
    {
    }
    assert forall id :: Reports(armed0, popped + multiset{top}, now, id) == Reports(armed0, popped, now, id);
    assert Untaken(armed0, popped + multiset{top}) == Untaken(armed0, popped);
  }

  lemma TakeLive(armed0: Armed, popped: Heap, now: Instant, armed: Armed, due: seq<DueTimer>, top: Entry)
    requires Taken(armed0, popped, now, armed, due)
    requires top.id in armed && armed[top.id].deadline == top.deadline <= now
    requires forall e :: e in popped ==> Before(e, top)
    ensures Taken(armed0, popped + multiset{top}, now,
                  if armed[top.id].repeats then armed else armed - {top.id},
                  due + [DueTimer(top.id, armed[top.id].nesting)])
  {
    var last := DueTimer(top.id, armed[top.id].nesting);
    forall id ensures Count(due + [last], id) == Reports(armed0, popped + multiset{top}, now, id) {
      CountSnoc(due, last, id);
      if id in armed0 && id != top.id { assert EntryOf(armed0, id) != top; }
    }
    assert Untaken(armed0, popped + multiset{top}) == if armed[top.id].repeats then armed else armed - {top.id};
  }

  /** What the loop left is the whole batch: nothing due stays in the heap. */
  lemma TakeComplete(armed0: Armed, order0: Heap, order: Heap, popped: Heap, now: Instant, armed: Armed, due: seq<DueTimer>)
    requires Indexed(armed0, order0) && Popped(order0, order, popped, now)
    requires order != multiset{} ==> Peek(order).deadline > now
    requires Taken(armed0, popped, now, armed, due)
    ensures forall e :: e in order ==> e.deadline > now
    ensures ReportsCounted(armed0, order0, now, due)
    ensures forall id :: Names(due, id) <==> IsDue(armed0, id, now)
    ensures forall id :: id in armed0 ==> (EntryOf(armed0, id) in popped <==> IsDue(armed0, id, now))
    ensures IsDueBatch(armed0, now, due) <==> SingleLiveEntries(armed0, order0, now)
    ensures OneEntryPerId(order0) ==> IsDueBatch(armed0, now, due)
  {
    assert forall e :: e in order ==> Before(Peek(order), e);
    assert forall id :: Reports(armed0, popped, now, id) == Reports(armed0, order0, now, id);
    BatchFromReports(armed0, order0, now, due);
    forall id ensures Names(due, id) <==> IsDue(armed0, id, now) { CountOfIds(due, id); }
    forall id | id in armed0 ensures EntryOf(armed0, id) in popped <==> IsDue(armed0, id, now) {
      assert EntryOf(armed0, id) in order0;
    }
  }

  lemma {:induction false} CountNames(due: seq<DueTimer>, id: nat)
    ensures Count(due, id) > 0 <==> exists i :: 0 <= i < |due| && due[i].id == id
  {
    if due != [] {
      var init, last := due[..|due| - 1], due[|due| - 1];
      CountNames(init, id);
      assert forall i :: 0 <= i < |init| ==> due[i] == init[i];
      assert due[|due| - 1] == last;
    }
  }

  lemma {:induction false} CountRepeats(due: seq<DueTimer>, id: nat)
    ensures Count(due, id) >= 2 <==> exists i, j :: 0 <= i < j < |due| && due[i].id == due[j].id == id
  {
    if due != [] {
      var init, last := due[..|due| - 1], due[|due| - 1];
      CountRepeats(init, id);
      CountNames(init, id);
      assert forall i :: 0 <= i < |init| ==> due[i] == init[i];
      if last.id == id && Count(init, id) > 0 {
        var i :| 0 <= i < |init| && init[i].id == id;
        assert due[i].id == due[|due| - 1].id == id;
      }
    }
  }

  lemma CountOfIds(due: seq<DueTimer>, id: nat)
    ensures Count(due, id) > 0 <==> exists i :: 0 <= i < |due| && due[i].id == id
    ensures (forall i, j :: 0 <= i < j < |due| ==> due[i].id != due[j].id) ==> Count(due, id) <= 1
    ensures (exists i, j :: 0 <= i < j < |due| && due[i].id == due[j].id == id) ==> Count(due, id) >= 2
  {
    CountNames(due, id);
    CountRepeats(due, id);
  }

  /** A batch that reports as `Reports` says is the plain map's batch exactly
      when no due repeat has a second live entry. */
  lemma BatchFromReports(armed: Armed, order: Heap, now: Instant, due: seq<DueTimer>)
    requires Indexed(armed, order) && InFireOrder(armed, due) && ReportsCounted(armed, order, now, due)
    ensures IsDueBatch(armed, now, due) <==> SingleLiveEntries(armed, order, now)
    ensures OneEntryPerId(order) ==> IsDueBatch(armed, now, due)
  {
    forall i | 0 <= i < |due| ensures IsDue(armed, due[i].id, now) { CountOfIds(due, due[i].id); }
    forall id | IsDue(armed, id, now) ensures exists i :: 0 <= i < |due| && due[i].id == id { CountOfIds(due, id); }
    if IsDueBatch(armed, now, due) {
      forall id | IsDue(armed, id, now) && armed[id].repeats ensures order[EntryOf(armed, id)] == 1 {
        CountOfIds(due, id);
      }
    }
    if SingleLiveEntries(armed, order, now) {
      forall i, j | 0 <= i < j < |due| ensures due[i].id != due[j].id { CountOfIds(due, due[i].id); }
    }
  }

  /** The re-armings a batch holds back, in batch order. */
  ghost function RepeatsOf(armed: Armed, due: seq<DueTimer>, now: Instant): seq<(nat, Timer)> {
    if due == [] then []
    else
      var held, last := RepeatsOf(armed, due[..|due| - 1], now), due[|due| - 1].id;
      if last in armed && armed[last].repeats then held + [(last, Rearmed(armed[last], now))] else held
  }

  lemma RepeatsSnoc(armed: Armed, due: seq<DueTimer>, last: DueTimer, now: Instant)
    ensures RepeatsOf(armed, due + [last], now) ==
            if last.id in armed && armed[last.id].repeats
            then RepeatsOf(armed, due, now) + [(last.id, Rearmed(armed[last.id], now))]
            else RepeatsOf(armed, due, now)
  {
    assert (due + [last])[..|due|] == due;
  }

  ghost function WithRearms(armed: Armed, repeating: seq<(nat, Timer)>): Armed {
    if repeating == [] then armed
    else WithRearms(armed, repeating[..|repeating| - 1])[repeating[|repeating| - 1].0 := repeating[|repeating| - 1].1]
  }

  ghost function RearmEntries(repeating: seq<(nat, Timer)>): Heap {
    if repeating == [] then multiset{}
    else
      var last := repeating[|repeating| - 1];
      RearmEntries(repeating[..|repeating| - 1]) + multiset{Entry(last.1.deadline, last.0)}
  }

  ghost predicate Names(due: seq<DueTimer>, id: nat) {
    exists i :: 0 <= i < |due| && due[i].id == id
  }

  lemma NamesSnoc(due: seq<DueTimer>, id: nat)
    requires due != []
    ensures Names(due, id) <==> Names(due[..|due| - 1], id) || due[|due| - 1].id == id
  {
    var init := due[..|due| - 1];
    assert forall i :: 0 <= i < |init| ==> init[i] == due[i];
  }

  lemma {:induction false} WithRearmsOf(armed0: Armed, armed: Armed, due: seq<DueTimer>, now: Instant, id: nat)
    requires InFireOrder(armed0, due)
    ensures var r := WithRearms(armed, RepeatsOf(armed0, due, now));
            && (id in r <==> id in armed || (Names(due, id) && armed0[id].repeats))
            && (id in r ==> r[id] == if Names(due, id) && armed0[id].repeats then Rearmed(armed0[id], now) else armed[id])
  {
    if due != [] {
      var init, last := due[..|due| - 1], due[|due| - 1].id;
      WithRearmsOf(armed0, armed, init, now, id);
      NamesSnoc(due, id);
      if armed0[last].repeats {
        var held := RepeatsOf(armed0, due, now);
        assert held[..|held| - 1] == RepeatsOf(armed0, init, now);
      } else {
        assert RepeatsOf(armed0, due, now) == RepeatsOf(armed0, init, now);
      }
    }
  }

  ghost function HeldEntries(armed: Armed, id: nat, now: Instant): Heap {
    if id in armed && armed[id].repeats then multiset{Entry(Rearmed(armed[id], now).deadline, id)} else multiset{}
  }

  lemma RearmEntriesSnoc(armed: Armed, due: seq<DueTimer>, last: DueTimer, now: Instant)
    ensures RearmEntries(RepeatsOf(armed, due + [last], now)) ==
            RearmEntries(RepeatsOf(armed, due, now)) + HeldEntries(armed, last.id, now)
  {
    RepeatsSnoc(armed, due, last, now);
    if last.id in armed && armed[last.id].repeats {
      var held := RepeatsOf(armed, due, now);
      var more := held + [(last.id, Rearmed(armed[last.id], now))];
      assert more[..|held|] == held;
    }
  }

  lemma {:induction false} RearmEntriesOf(armed0: Armed, due: seq<DueTimer>, now: Instant, e: Entry)
    requires InFireOrder(armed0, due)
    ensures var r := RearmEntries(RepeatsOf(armed0, due, now));
            && (e in r <==> Names(due, e.id) && armed0[e.id].repeats && e.deadline == Rearmed(armed0[e.id], now).deadline)
            && r[e] <= Count(due, e.id)
  {
    if due != [] {
      var init, last := due[..|due| - 1], due[|due| - 1];
      assert due == init + [last];
      RearmEntriesOf(armed0, init, now, e);
      NamesSnoc(due, e.id);
      CountSnoc(init, last, e.id);
      RearmEntriesSnoc(armed0, init, last, now);
    }
  }

  /** The closing half of a take makes the map the plain map's. */
  lemma TakeRearmsMap(armed0: Armed, popped: Heap, now: Instant, due: seq<DueTimer>)
    requires InFireOrder(armed0, due)
    requires forall id :: Names(due, id) <==> IsDue(armed0, id, now)
    requires forall id :: id in armed0 ==> (EntryOf(armed0, id) in popped <==> IsDue(armed0, id, now))
    ensures WithRearms(Untaken(armed0, popped), RepeatsOf(armed0, due, now)) == AfterTake(armed0, now)
  {
    var r := WithRearms(Untaken(armed0, popped), RepeatsOf(armed0, due, now));
    forall id
      ensures id in r <==> id in AfterTake(armed0, now)
      ensures id in r ==> r[id] == AfterTake(armed0, now)[id]
    {
      WithRearmsOf(armed0, Untaken(armed0, popped), due, now, id);
    }
  }

  /** It leaves every arming indexed. */
  lemma TakeRearmsIndexed(armed0: Armed, order0: Heap, rest: Heap, popped: Heap, now: Instant, due: seq<DueTimer>)
    requires Indexed(armed0, order0) && Popped(order0, rest, popped, now)
    requires InFireOrder(armed0, due)
    requires forall id :: Names(due, id) <==> IsDue(armed0, id, now)
    ensures Indexed(AfterTake(armed0, now), rest + RearmEntries(RepeatsOf(armed0, due, now)))
    ensures forall e :: e in RearmEntries(RepeatsOf(armed0, due, now)) ==> e.id in armed0
  {
    var back := RearmEntries(RepeatsOf(armed0, due, now));
    forall id | id in AfterTake(armed0, now) ensures 1 <= id <= MAX_U32 && EntryOf(AfterTake(armed0, now), id) in rest + back {
      assert EntryOf(armed0, id) in order0;
      RearmEntriesOf(armed0, due, now, EntryOf(AfterTake(armed0, now), id));
    }
    forall e | e in back ensures e.id in armed0 { RearmEntriesOf(armed0, due, now, e); }
  }

  /** It leaves no id in the heap twice where none was. */
  lemma TakeRearmsClean(armed0: Armed, order0: Heap, rest: Heap, popped: Heap, now: Instant, due: seq<DueTimer>)
    requires Indexed(armed0, order0) && Popped(order0, rest, popped, now)
    requires forall e :: e in rest ==> e.deadline > now
    requires OneEntryPerId(order0) && InFireOrder(armed0, due) && IsDueBatch(armed0, now, due)
    requires forall id :: Names(due, id) <==> IsDue(armed0, id, now)
    ensures OneEntryPerId(rest + RearmEntries(RepeatsOf(armed0, due, now)))
  {
    var back := RearmEntries(RepeatsOf(armed0, due, now));
    forall e
      ensures back[e] <= 1
      ensures e in back ==> IsDue(armed0, e.id, now) && e.deadline == Rearmed(armed0[e.id], now).deadline
    {
      RearmEntriesOf(armed0, due, now, e);
      CountOfIds(due, e.id);
    }
    OnePerIdUnion(armed0, order0, rest, popped, back, now);
  }

  lemma OnePerIdUnion(armed0: Armed, order0: Heap, rest: Heap, popped: Heap, back: Heap, now: Instant)
    requires Indexed(armed0, order0) && Popped(order0, rest, popped, now) && OneEntryPerId(order0)
    requires forall e :: e in rest ==> e.deadline > now
    requires forall e :: back[e] <= 1
    requires forall e :: e in back ==> IsDue(armed0, e.id, now) && e.deadline == Rearmed(armed0[e.id], now).deadline
    ensures OneEntryPerId(rest + back)
  {
    forall e | e in rest ensures e in order0 && order0[e] == 1 && !IsDue(armed0, e.id, now) {
      LeftoverIsNotDue(armed0, order0, rest, popped, now, e);
    }
    assert forall e, f :: e in rest && f in back ==> e.id != f.id;
    assert forall e, f :: e in back && f in back && e.id == f.id ==> e == f;
  }

  lemma TakeEnds(armed0: Armed, order0: Heap, rest: Heap, popped: Heap, now: Instant,
                 armed: Armed, due: seq<DueTimer>, nextId: nat)
    requires Indexed(armed0, order0) && Popped(order0, rest, popped, now)
    requires rest != multiset{} ==> Peek(rest).deadline > now
    requires Taken(armed0, popped, now, armed, due)
    ensures var held := RepeatsOf(armed0, due, now);
            && WithRearms(armed, held) == AfterTake(armed0, now)
            && Indexed(AfterTake(armed0, now), rest + RearmEntries(held))
            && ReportsCounted(armed0, order0, now, due)
            && (IsDueBatch(armed0, now, due) <==> SingleLiveEntries(armed0, order0, now))
            && (OneEntryPerId(order0) ==> IsDueBatch(armed0, now, due) && OneEntryPerId(rest + RearmEntries(held)))
            && (BelowNext(order0, nextId) ==> BelowNext(rest + RearmEntries(held), nextId))
  {
    TakeComplete(armed0, order0, rest, popped, now, armed, due);
    TakeRearmsMap(armed0, popped, now, due);
    TakeRearmsIndexed(armed0, order0, rest, popped, now, due);
    if OneEntryPerId(order0) {
      TakeRearmsClean(armed0, order0, rest, popped, now, due);
    }
    assert forall id :: id in armed0 ==> EntryOf(armed0, id) in order0;
  }

  lemma LeftoverIsNotDue(armed0: Armed, order0: Heap, rest: Heap, popped: Heap, now: Instant, e: Entry)
    requires Indexed(armed0, order0) && Popped(order0, rest, popped, now)
    requires forall f :: f in rest ==> f.deadline > now
    requires OneEntryPerId(order0) && e in rest
    ensures !IsDue(armed0, e.id, now)
  {
    assert e in order0;
    assert e.id in armed0 ==> EntryOf(armed0, e.id) in order0;
  }

  /** With an id handed out again over its own leftover, one batch reports a
      repeating timer twice: the case `SingleLiveEntries` rules out. */
  lemma ReusedIdReportsTwice()
    ensures var leftover := multiset{Entry(10, 1)};
            var armed: Armed := map[1 := NewTimer(Finite(0.0), true, 0, 10)];
            && Indexed(armed, leftover + multiset{EntryOf(armed, 1)})
            && Reports(armed, leftover + multiset{EntryOf(armed, 1)}, 10, 1) == 2
            && !SingleLiveEntries(armed, leftover + multiset{EntryOf(armed, 1)}, 10)
  {
    var armed: Armed := map[1 := NewTimer(Finite(0.0), true, 0, 10)];
    assert NewTimer(Finite(0.0), true, 0, 10) == Timer(10, 0, true, 1);
    assert EntryOf(armed, 1) == Entry(10, 1);
    assert IsDue(armed, 1, 10);
  }

  /** Calls alone get there: a timer that is armed and cleared leaves its
      entry, every other id is handed out in turn, and the first one comes
      back for a repeat with the same deadline. */
  method ReuseIsReached() returns (schedule: TimerSchedule, due: seq<DueTimer>)
    ensures fresh(schedule) && schedule.Valid() && schedule.armed.Keys == {1}
    ensures Count(due, 1) >= 2
  {
    schedule := LeavesItsEntry();
    ComesRound(schedule);
    assert 1 !in schedule.armed;
    var id := schedule.Arm(Finite(0.0), true, 0, 10);
    TwiceLive(schedule.armed, schedule.order);
    due := schedule.TakeDue(10);
  }

  method LeavesItsEntry() returns (schedule: TimerSchedule)
    ensures fresh(schedule) && schedule.Valid() && schedule.armed == map[] && schedule.nextId == 2
    ensures Entry(10, 1) in schedule.order
  {
    schedule := new TimerSchedule();
    assert 1 !in schedule.armed;
    var id := schedule.Arm(Finite(0.0), true, 0, 10);
    assert schedule.armed[1] == Timer(10, 0, true, 1);
    schedule.Clear(id);
  }

  method ComesRound(schedule: TimerSchedule)
    requires schedule.Valid() && schedule.armed == map[] && Entry(10, 1) in schedule.order
    modifies schedule
    ensures schedule.Valid() && schedule.armed == map[] && Entry(10, 1) in schedule.order
    ensures schedule.nextId == 1
  {
    while schedule.nextId != 1
      invariant schedule.Valid() && schedule.armed == map[] && Entry(10, 1) in schedule.order
      decreases if schedule.nextId == 1 then 0 else MAX_U32 + 1 - schedule.nextId
    {
      assert 1 !in schedule.armed;
      var id := schedule.Arm(Finite(0.0), false, 0, 10);
      schedule.Clear(id);
    }
  }

  lemma TwiceLive(armed: Armed, order: Heap)
    requires armed == map[1 := NewTimer(Finite(0.0), true, 0, 10)] && order[Entry(10, 1)] >= 2
    ensures Reports(armed, order, 10, 1) >= 2 && AfterTake(armed, 10).Keys == {1}
  {
    assert armed[1] == Timer(10, 0, true, 1);
    assert IsDue(armed, 1, 10);
    assert 1 in AfterTake(armed, 10);
  }

  // ---------------------------------------------------------------------
  // A realm: the schedule, the nesting level, and callbacks that arm and
  // clear timers of their own. A chain is the fire times a timer descends from.

  datatype Callback = Callback(id: nat, nesting: nat, chain: seq<Instant>)

  datatype Realm = Realm(
    armed: Armed,
    chains: map<nat, seq<Instant>>,
    clock: Instant,
    nesting: nat,
    running: Option<Callback>,
    batch: seq<Callback>)

  datatype Step =
    | Tick(now: Instant)
    | SetTimer(id: nat, milliseconds: Number, repeats: bool)
    | ClearTimer(id: nat)
    | TakeBatch(due: seq<DueTimer>)
    | RunNext
    | Return

  const QUIET := Realm(map[], map[], 0, 0, None, [])

  ghost predicate Enabled(r: Realm, step: Step) {
    match step
    case Tick(now) => r.clock <= now
    case SetTimer(id, _, _) => id !in r.armed
    case ClearTimer(_) => true
    case TakeBatch(due) => r.batch == [] && r.running.None? && IsDueBatch(r.armed, r.clock, due)
    case RunNext => r.batch != [] && r.running.None?
    case Return => r.running.Some?
  }

  ghost function Inherited(r: Realm): seq<Instant> {
    if r.running.Some? then r.running.value.chain else []
  }

  ghost function Fired(r: Realm, id: nat): seq<Instant> {
    (if id in r.chains then r.chains[id] else []) + [r.clock]
  }

  ghost function Do(r: Realm, step: Step): Realm
    requires Enabled(r, step)
  {
    match step
    case Tick(now) => r.(clock := now)
    case SetTimer(id, ms, repeats) =>
      r.(armed := r.armed[id := NewTimer(ms, repeats, r.nesting, r.clock)], chains := r.chains[id := Inherited(r)])
    case ClearTimer(id) => r.(armed := r.armed - {id})
    case TakeBatch(due) =>
      r.(armed := AfterTake(r.armed, r.clock),
         chains := map id | id in r.chains :: if IsDue(r.armed, id, r.clock) then Fired(r, id) else r.chains[id],
         batch := seq(|due|, i requires 0 <= i < |due| => Callback(due[i].id, due[i].nesting, Fired(r, due[i].id))))
    case RunNext => r.(running := Some(r.batch[0]), nesting := r.batch[0].nesting, batch := r.batch[1..])
    case Return => r.(running := None, nesting := 0)
  }

  ghost predicate Next(r: Realm, r': Realm) {
    exists step :: Enabled(r, step) && r' == Do(r, step)
  }

  ghost predicate IsRun(run: seq<Realm>) {
    && run != [] && run[0] == QUIET
    && (forall i, j :: 0 <= i && j == i + 1 < |run| ==> Next(run[i], run[j]))
  }

  /** No fire precedes the one before it, and past the clamped nesting level
      each waits the floor. */
  ghost predicate Paced(chain: seq<Instant>) {
    forall k :: 0 < k < |chain| ==> chain[k - 1] + (if k > CLAMPED_NESTING then CLAMPED_DELAY else 0) <= chain[k]
  }

  function Level(chain: seq<Instant>): nat {
    if |chain| >= MAX_U32 then MAX_U32 else |chain|
  }

  /** A timer descending from `chain` cannot come due too early. */
  ghost predicate Waits(timer: Timer, chain: seq<Instant>) {
    && Paced(chain)
    && timer.nesting == Deeper(Level(chain))
    && (chain != [] ==>
          chain[|chain| - 1] + (if |chain| > CLAMPED_NESTING then CLAMPED_DELAY else 0) <= timer.deadline)
  }

  ghost predicate Runs(callback: Callback, clock: Instant) {
    && callback.chain != [] && callback.chain[|callback.chain| - 1] <= clock
    && Paced(callback.chain) && callback.nesting == Level(callback.chain)
  }

  ghost predicate RealmInvariant(r: Realm) {
    && (forall id :: id in r.armed ==> id in r.chains && Waits(r.armed[id], r.chains[id]))
    && (forall i :: 0 <= i < |r.batch| ==> Runs(r.batch[i], r.clock))
    && (r.running.Some? ==> Runs(r.running.value, r.clock))
    && r.nesting == (if r.running.Some? then r.running.value.nesting else 0)
  }

  lemma FireKeepsPace(timer: Timer, chain: seq<Instant>, now: Instant)
    requires Waits(timer, chain) && timer.deadline <= now
    ensures Runs(Callback(0, timer.nesting, chain + [now]), now)
    ensures Waits(Rearmed(timer, now), chain + [now])
  {
    var longer := chain + [now];
    assert forall k :: 0 <= k < |chain| ==> longer[k] == chain[k];
  }

  lemma StepKeepsPace(r: Realm, step: Step)
    requires RealmInvariant(r) && Enabled(r, step)
    ensures RealmInvariant(Do(r, step))
  {
    match step
    case TakeBatch(due) =>
      forall id | IsDue(r.armed, id, r.clock)
        ensures Runs(Callback(0, r.armed[id].nesting, Fired(r, id)), r.clock) && Waits(Rearmed(r.armed[id], r.clock), Fired(r, id))
      {
        FireKeepsPace(r.armed[id], r.chains[id], r.clock);
      }
      var after := Do(r, step);
      forall i | 0 <= i < |after.batch| ensures Runs(after.batch[i], r.clock) {
        assert IsDue(r.armed, due[i].id, r.clock);
        assert Runs(Callback(0, due[i].nesting, Fired(r, due[i].id)), r.clock);
      }
    case _ =>
  }

  lemma {:induction false} RunKeepsPace(run: seq<Realm>, i: nat)
    requires IsRun(run) && i < |run|
    ensures RealmInvariant(run[i])
  {
    if i > 0 {
      RunKeepsPace(run, i - 1);
      assert Next(run[i - 1], run[i]);
      var step :| Enabled(run[i - 1], step) && run[i] == Do(run[i - 1], step);
      StepKeepsPace(run[i - 1], step);
    }
  }

  lemma {:induction false} PacedIsBounded(chain: seq<Instant>, k: nat)
    requires Paced(chain) && k < |chain|
    ensures chain[0] + CLAMPED_DELAY * (if k > CLAMPED_NESTING then k - CLAMPED_NESTING else 0) <= chain[k]
  {
    if k > 0 {
      PacedIsBounded(chain, k - 1);
    }
  }

  /** The rate bound: in every run, whatever its callbacks ask for, the k-th
      fire of a chain (from one) is `4 ms * max(0, k - 6)` or more after its
      first. The batches of a run are the plain map's, which `TakeDue` gives as
      long as no repeat is armed over its own leftover entry. */
  lemma RateBound(run: seq<Realm>, i: nat, k: nat)
    requires IsRun(run) && i < |run| && run[i].running.Some?
    requires 1 <= k <= |run[i].running.value.chain|
    ensures var fires := run[i].running.value.chain;
            fires[0] + 4 * MILLISECOND * (if k > 6 then k - 6 else 0) <= fires[k - 1]
  {
    var running := run[i].running.value;
    assert Paced(running.chain) by { RunKeepsPace(run, i); }
    PacedIsBounded(running.chain, k - 1);
  }
}
