/** How long timers wait, over a realm's runs beside the steps they take: what
    was asked for, and the floor of the nesting clamp where it applies. */
module TimerDelays {
  import opened Options
  import opened Timers

  ghost predicate Took(run: seq<Realm>, steps: seq<Step>, i: nat)
    requires i < |steps| && |run| == |steps| + 1
  {
    Enabled(run[i], steps[i]) && run[i + 1] == Do(run[i], steps[i])
  }

  ghost predicate IsTrace(run: seq<Realm>, steps: seq<Step>) {
    && |run| == |steps| + 1
    && run[0] == QUIET
    && forall i {:trigger Took(run, steps, i)} :: 0 <= i < |steps| ==> Took(run, steps, i)
  }

  lemma TraceIsRun(run: seq<Realm>, steps: seq<Step>)
    requires IsTrace(run, steps)
    ensures IsRun(run)
  {
    forall i, j | 0 <= i && j == i + 1 < |run| ensures Next(run[i], run[j]) {
      assert Took(run, steps, i);
    }
  }

  /** The batch of this step reports `id`. */
  ghost predicate Fires(step: Step, id: nat) {
    step.TakeBatch? && Names(step.due, id)
  }

  /** The step ends or replaces whatever is armed under `id`. */
  predicate Resets(step: Step, id: nat) {
    match step
    case SetTimer(i, _, _) => i == id
    case ClearTimer(i) => i == id
    case _ => false
  }

  // ------------------------------------------------- no fire is too early

  /** Whatever is armed under `id` asked for `requested` and waits at least
      that long from `since`. */
  ghost predicate PendingSince(r: Realm, id: nat, requested: nat, since: Instant) {
    && since <= r.clock
    && (id in r.armed ==> r.armed[id].requested == requested && since + requested <= r.armed[id].deadline)
  }

  lemma SetPends(r: Realm, id: nat, milliseconds: Number, repeats: bool)
    requires Enabled(r, SetTimer(id, milliseconds, repeats))
    ensures PendingSince(Do(r, SetTimer(id, milliseconds, repeats)), id, RequestedDelay(milliseconds), r.clock)
  {
  }

  lemma FirePends(r: Realm, due: seq<DueTimer>, id: nat, requested: nat, since: Instant)
    requires Enabled(r, TakeBatch(due)) && Fires(TakeBatch(due), id) && PendingSince(r, id, requested, since)
    ensures since + requested <= r.clock
    ensures PendingSince(Do(r, TakeBatch(due)), id, requested, r.clock)
  {
    var i :| 0 <= i < |due| && due[i].id == id;
    assert IsDue(r.armed, due[i].id, r.clock);
  }

  lemma StepPends(r: Realm, step: Step, id: nat, requested: nat, since: Instant)
    requires Enabled(r, step) && !Resets(step, id) && PendingSince(r, id, requested, since)
    ensures PendingSince(Do(r, step), id, requested, since)
  {
  }

  lemma {:induction false} PendsOn(run: seq<Realm>, steps: seq<Step>, p: nat, q: nat, id: nat, requested: nat, since: Instant)
    requires IsTrace(run, steps) && p <= q < |run| && PendingSince(run[p], id, requested, since)
    requires forall k :: p <= k < q ==> !Resets(steps[k], id)
    ensures PendingSince(run[q], id, requested, since)
    decreases q
  {
    if p < q {
      PendsOn(run, steps, p, q - 1, id, requested, since);
      assert Took(run, steps, q - 1);
      StepPends(run[q - 1], steps[q - 1], id, requested, since);
    }
  }

  /** No fire of a timer comes earlier than it was asked to: not after the call
      that set it (`p` is `a`), and not after any fire before it (`p` fires). */
  lemma FiresNoEarlier(run: seq<Realm>, steps: seq<Step>, a: nat, p: nat, b: nat,
                       id: nat, milliseconds: Number, repeats: bool, asked: int)
    requires IsTrace(run, steps) && a <= p < b < |steps|
    requires steps[a] == SetTimer(id, milliseconds, repeats) && AskedFor(milliseconds, asked)
    requires p == a || Fires(steps[p], id)
    requires Fires(steps[b], id) && forall q :: a < q < b ==> !Resets(steps[q], id)
    ensures run[p].clock + asked <= run[b].clock
  {
    var requested := RequestedDelay(milliseconds);
    RequestedIsAsked(milliseconds);
    AskedOnce(milliseconds, asked, requested);
    assert Took(run, steps, a) && Took(run, steps, p) && Took(run, steps, b);
    SetPends(run[a], id, milliseconds, repeats);
    if p > a {
      PendsOn(run, steps, a + 1, p, id, requested, run[a].clock);
      FirePends(run[p], steps[p].due, id, requested, run[a].clock);
    }
    PendsOn(run, steps, p + 1, b, id, requested, run[p].clock);
    FirePends(run[b], steps[b].due, id, requested, run[p].clock);
  }

  // ------------------------------------------ the wait is exactly as asked

  /** A timer set by a callback that is the n-th fire of its chain, or by no
      callback (n is 0), waits exactly what it asked for, or the floor from the
      sixth level on. */
  lemma SetWaitsAsAsked(run: seq<Realm>, steps: seq<Step>, a: nat, id: nat, milliseconds: Number, repeats: bool, asked: int)
    requires IsTrace(run, steps) && a < |steps|
    requires steps[a] == SetTimer(id, milliseconds, repeats) && AskedFor(milliseconds, asked)
    ensures id in run[a + 1].armed && run[a + 1].armed[id].repeats == repeats
    ensures IsWait(asked, |Inherited(run[a])|, run[a + 1].armed[id].deadline - run[a].clock)
  {
    var requested := RequestedDelay(milliseconds);
    RequestedIsAsked(milliseconds);
    AskedOnce(milliseconds, asked, requested);
    assert Took(run, steps, a);
    TraceIsRun(run, steps);
    RunKeepsPace(run, a);
    EffectiveIsWait(requested, run[a].nesting);
  }

  /** A repeat that fires waits as long again, at the level of that fire. */
  lemma RepeatWaitsAsAsked(run: seq<Realm>, steps: seq<Step>, a: nat, b: nat, id: nat, milliseconds: Number, asked: int)
    requires IsTrace(run, steps) && a < b < |steps|
    requires steps[a] == SetTimer(id, milliseconds, true) && AskedFor(milliseconds, asked)
    requires Fires(steps[b], id) && forall q :: a < q < b ==> !Resets(steps[q], id)
    ensures id in run[b + 1].armed && id in run[b + 1].chains && run[b + 1].armed[id].repeats
    ensures IsWait(asked, |run[b + 1].chains[id]|, run[b + 1].armed[id].deadline - run[b].clock)
  {
    var requested := RequestedDelay(milliseconds);
    RequestedIsAsked(milliseconds);
    AskedOnce(milliseconds, asked, requested);
    assert Took(run, steps, a);
    SetPends(run[a], id, milliseconds, true);
    PendsOn(run, steps, a + 1, b, id, requested, run[a].clock);
    RepeatStays(run, steps, a, b, id, milliseconds);
    TraceIsRun(run, steps);
    RunKeepsPace(run, b);
    assert Took(run, steps, b);
    RearmWaits(run[b], steps[b].due, id);
  }

  lemma RearmWaits(r: Realm, due: seq<DueTimer>, id: nat)
    requires RealmInvariant(r) && Enabled(r, TakeBatch(due)) && Fires(TakeBatch(due), id)
    requires id in r.armed && r.armed[id].repeats
    ensures var after := Do(r, TakeBatch(due));
            && id in after.armed && id in after.chains && after.armed[id].repeats
            && IsWait(r.armed[id].requested, |after.chains[id]|, after.armed[id].deadline - r.clock)
  {
    var i :| 0 <= i < |due| && due[i].id == id;
    assert IsDue(r.armed, due[i].id, r.clock);
    EffectiveIsWait(r.armed[id].requested, r.armed[id].nesting);
  }

  lemma StepKeepsRepeat(r: Realm, step: Step, id: nat)
    requires Enabled(r, step) && !Resets(step, id) && id in r.armed && r.armed[id].repeats
    ensures id in Do(r, step).armed && Do(r, step).armed[id].repeats
  {
  }

  /** A repeat stays armed until it is cleared. */
  lemma {:induction false} RepeatStays(run: seq<Realm>, steps: seq<Step>, a: nat, q: nat, id: nat, milliseconds: Number)
    requires IsTrace(run, steps) && a < q < |run| && steps[a] == SetTimer(id, milliseconds, true)
    requires forall k :: a < k < q ==> !Resets(steps[k], id)
    ensures id in run[q].armed && run[q].armed[id].repeats
  {
    assert Took(run, steps, q - 1);
    if q > a + 1 {
      RepeatStays(run, steps, a, q - 1, id, milliseconds);
      StepKeepsRepeat(run[q - 1], steps[q - 1], id);
    }
  }

  // ------------------------------------------- no fire without an arming

  lemma StaysUnarmed(r: Realm, step: Step, id: nat)
    requires Enabled(r, step) && id !in r.armed
    ensures !Fires(step, id)
    ensures !(step.SetTimer? && step.id == id) ==> id !in Do(r, step).armed
  {
  }

  lemma {:induction false} UnarmedNeverFires(run: seq<Realm>, steps: seq<Step>, p: nat, q: nat, id: nat)
    requires IsTrace(run, steps) && p <= q < |steps| && id !in run[p].armed
    requires forall k :: p <= k < q ==> !(steps[k].SetTimer? && steps[k].id == id)
    ensures id !in run[q].armed && !Fires(steps[q], id)
    decreases q
  {
    if p < q {
      UnarmedNeverFires(run, steps, p, q - 1, id);
      assert Took(run, steps, q - 1);
      StaysUnarmed(run[q - 1], steps[q - 1], id);
    }
    assert Took(run, steps, q);
    StaysUnarmed(run[q], steps[q], id);
  }

  /** A cleared timer never fires, until its id is set again. */
  lemma ClearedNeverFires(run: seq<Realm>, steps: seq<Step>, a: nat, q: nat, id: nat)
    requires IsTrace(run, steps) && a < q < |steps| && steps[a] == ClearTimer(id)
    requires forall k :: a < k < q ==> !(steps[k].SetTimer? && steps[k].id == id)
    ensures !Fires(steps[q], id)
  {
    assert Took(run, steps, a);
    UnarmedNeverFires(run, steps, a + 1, q, id);
  }

  lemma StepKeepsOneShot(r: Realm, step: Step, id: nat)
    requires Enabled(r, step) && !Resets(step, id) && (id in r.armed ==> !r.armed[id].repeats)
    ensures id in Do(r, step).armed ==> !Do(r, step).armed[id].repeats
  {
  }

  lemma {:induction false} OneShotStays(run: seq<Realm>, steps: seq<Step>, a: nat, q: nat, id: nat, milliseconds: Number)
    requires IsTrace(run, steps) && a < q < |run| && steps[a] == SetTimer(id, milliseconds, false)
    requires forall k :: a < k < q ==> !Resets(steps[k], id)
    ensures id in run[q].armed ==> !run[q].armed[id].repeats
  {
    assert Took(run, steps, q - 1);
    if q > a + 1 {
      OneShotStays(run, steps, a, q - 1, id, milliseconds);
      StepKeepsOneShot(run[q - 1], steps[q - 1], id);
    }
  }

  /** A timer set without repeating fires once at most. */
  lemma OneShotFiresOnce(run: seq<Realm>, steps: seq<Step>, a: nat, b: nat, c: nat, id: nat, milliseconds: Number)
    requires IsTrace(run, steps) && a < b < c < |steps| && steps[a] == SetTimer(id, milliseconds, false)
    requires Fires(steps[b], id) && forall k :: a < k < c ==> !Resets(steps[k], id)
    ensures !Fires(steps[c], id)
  {
    assert Took(run, steps, b);
    OneShotStays(run, steps, a, b, id, milliseconds);
    var i :| 0 <= i < |steps[b].due| && steps[b].due[i].id == id;
    assert IsDue(run[b].armed, steps[b].due[i].id, run[b].clock);
    UnarmedNeverFires(run, steps, b + 1, c, id);
  }
}
