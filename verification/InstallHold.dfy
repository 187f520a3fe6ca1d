/** Background installs of containers: which URLs an install holds, the list
    of holds, and the protocol between one install and the source loads that
    wait for it. */
module InstallHold {
  import opened Options
  import opened Texts

  // ---------------------------------------------------------- what is held

  /** `path` and `url` are URLs up to the end of their paths. An install
      covers its own path and everything below it. */
  predicate Covers(path: string, url: string) {
    StartsWith(url, path) && (|url| == |path| || url[|path|] == '/')
  }

  /** The path of a container, one trailing slash dropped. */
  function HeldPath(container: string): string {
    if container != "" && container[|container| - 1] == '/' then container[..|container| - 1] else container
  }

  /** The pieces between slashes. */
  function Segments(s: string): (r: seq<string>)
    ensures r != []
  {
    if s == "" then [""] else WithChar(s[0], Segments(s[1..]))
  }

  function WithChar(c: char, segments: seq<string>): (r: seq<string>)
    requires segments != []
    ensures r != []
  {
    if c == '/' then [""] + segments else [[c] + segments[0]] + segments[1..]
  }

  function Joined(segments: seq<string>): string
    requires segments != []
  {
    if |segments| == 1 then segments[0] else segments[0] + ['/'] + Joined(segments[1..])
  }

  lemma WithCharSplits(c: char, a: seq<string>, b: seq<string>)
    requires a != []
    ensures WithChar(c, a + b) == WithChar(c, a) + b
  {
    assert (a + b)[1..] == a[1..] + b;
  }

  lemma {:induction false} SegmentsSplit(a: string, b: string)
    ensures Segments(a + ['/'] + b) == Segments(a) + Segments(b)
    decreases |a|
  {
    var s := a + ['/'] + b;
    if a == "" {
      assert s[1..] == b;
    } else {
      assert s[1..] == a[1..] + ['/'] + b;
      SegmentsSplit(a[1..], b);
      WithCharSplits(a[0], Segments(a[1..]), Segments(b));
    }
  }

  lemma {:induction false} JoinedBack(s: string)
    ensures Joined(Segments(s)) == s
    decreases |s|
  {
    if s == "" {
    } else {
      var rest := Segments(s[1..]);
      JoinedBack(s[1..]);
      assert s == [s[0]] + s[1..];
      if s[0] == '/' {
        assert ([""] + rest)[1..] == rest;
      } else {
        var segments := [[s[0]] + rest[0]] + rest[1..];
        assert segments[1..] == rest[1..];
        assert Joined(segments) == [s[0]] + Joined(rest);
      }
    }
  }

  lemma {:induction false} JoinedSplits(a: seq<string>, b: seq<string>)
    requires a != [] && b != []
    ensures Joined(a + b) == Joined(a) + ['/'] + Joined(b)
    decreases |a|
  {
    if |a| == 1 {
      assert (a + b)[1..] == b;
    } else {
      assert (a + b)[1..] == a[1..] + b;
      JoinedSplits(a[1..], b);
    }
  }

  /** The prefix test respects segment boundaries: a URL is covered exactly
      when the container's segments begin its own. */
  lemma CoversWholeSegments(path: string, url: string)
    ensures Covers(path, url) <==> Segments(path) <= Segments(url)
  {
    if Covers(path, url) {
      if |url| == |path| {
        assert url == path;
      } else {
        var rest := url[|path| + 1..];
        assert url == path + ['/'] + rest;
        SegmentsSplit(path, rest);
      }
    }
    if Segments(path) <= Segments(url) {
      var rest := Segments(url)[|Segments(path)|..];
      assert Segments(url) == Segments(path) + rest;
      JoinedBack(path);
      JoinedBack(url);
      if rest == [] {
        assert Segments(url) == Segments(path);
      } else {
        JoinedSplits(Segments(path), rest);
        assert url == path + ['/'] + Joined(rest);
      }
    }
  }

  // ------------------------------------------------------ the list of holds

  datatype Hold = Hold(id: nat, path: string)

  function Without(holds: seq<Hold>, id: nat): seq<Hold> {
    if holds == [] then []
    else Without(holds[..|holds| - 1], id) + (if holds[|holds| - 1].id == id then [] else [holds[|holds| - 1]])
  }

  /** The installs that are running, in the order their holds were placed. */
  class Registry {
    var installs: seq<Hold>

    constructor ()
      ensures installs == []
    {
      installs := [];
    }

    method Place(id: nat, container: string)
      modifies this
      ensures installs == old(installs) + [Hold(id, HeldPath(container))]
    {
      installs := installs + [Hold(id, HeldPath(container))];
    }

    method Release(id: nat)
      modifies this
      ensures installs == Without(old(installs), id)
    {
      var kept: seq<Hold> := [];
      for i := 0 to |installs|
        invariant installs == old(installs)
        invariant kept == Without(installs[..i], id)
      {
        assert installs[..i + 1][..i] == installs[..i];
        if installs[i].id != id {
          kept := kept + [installs[i]];
        }
      }
      assert installs[..|installs|] == installs;
      installs := kept;
    }

    /** The first install that will register `url`, if one is running. */
    method InstallCovering(url: string) returns (found: Option<nat>)
      ensures found.None? <==> forall i :: 0 <= i < |installs| ==> !Covers(installs[i].path, url)
      ensures found.Some? ==> exists i :: 0 <= i < |installs| && installs[i].id == found.value && Covers(installs[i].path, url)
                                       && forall j :: 0 <= j < i ==> !Covers(installs[j].path, url)
    {
      for i := 0 to |installs|
        invariant forall j :: 0 <= j < i ==> !Covers(installs[j].path, url)
      {
        if Covers(installs[i].path, url) {
          return Some(installs[i].id);
        }
      }
      return None;
    }
  }

  /** A release ends exactly the holds of its id and keeps the others in
      order: a URL stays held exactly while another install covers it. */
  lemma {:induction false} ReleaseEndsOnlyItsOwn(holds: seq<Hold>, id: nat, h: Hold)
    ensures h in Without(holds, id) <==> h in holds && h.id != id
    decreases |holds|
  {
    if holds == [] {
    } else {
      var init, last := holds[..|holds| - 1], holds[|holds| - 1];
      ReleaseEndsOnlyItsOwn(init, id, h);
      assert holds == init + [last];
    }
  }

  // ------------------------------------------------------------ the protocol

  /** What is registered under a URL; URLs are named by numbers here. */
  datatype Item = Bytes(content: nat) | Sheet(content: nat)

  datatype Ending = Done | FailedWith(message: nat)

  /** What the watch the loads wait on holds. */
  datatype Told = Nothing | Ended(ending: Ending) | Closed

  /** Where an install stands; `Returned` is behind its last registration, and
      then it releases its hold, and only then tells. */
  datatype Progress = Running | Returned(ending: Ending) | Released(ending: Ending) | Sent

  datatype Install = Install(progress: Progress, told: Told)

  datatype Phase =
    | Spawned
    | Waiting(install: nat)         // found its hold, and its watch
    | Checking                      // a stylesheet, after an install that went well
    | Fetching
    | Fetched(seen: Option<Item>)   // what the transport found registered
    | Answered(sheet: nat)
    | Refused(install: nat, message: Option<nat>)
    | Dropped

  /** `covering` are the installs that cover its URL, `before` those whose
      holds were placed when it was requested, and `skipped` the covering
      ones whose holds stood when it looked, but which it did not wait for. */
  datatype Load = Load(url: nat, covering: set<nat>, before: set<nat>, style: bool, skipped: set<nat>, phase: Phase)

  datatype World = World(
    installs: map<nat, Install>,
    holds: seq<nat>,
    registry: map<nat, Item>,
    loads: map<nat, Load>)

  const INITIAL := World(map[], [], map[], map[])

  datatype Step =
    // an install
    | PlaceHold(install: nat) | Put(install: nat, url: nat, item: Item) | Return(install: nat, ending: Ending)
    | Release(install: nat) | Tell(install: nat) | Abandon(install: nat)
    // the host's own registrations
    | Register(url: nat, item: Item) | Unregister(url: nat) | ClearRegistered
    // a load
    | Request(id: nat, url: nat, covering: set<nat>, style: bool)
    | LookUp(id: nat) | Learn(id: nat) | Check(id: nat) | Fetch(id: nat) | Cancel(id: nat)

  predicate Enabled(w: World, step: Step) {
    match step
    case PlaceHold(k) => k !in w.installs
    case Put(k, _, _) => k in w.installs && w.installs[k].progress.Running?
    case Return(k, _) => k in w.installs && w.installs[k].progress.Running?
    case Release(k) => k in w.installs && w.installs[k].progress.Returned? && w.installs[k].told == Nothing
    case Tell(k) => k in w.installs && w.installs[k].progress.Released? && w.installs[k].told == Nothing
    case Abandon(k) => k in w.installs && w.installs[k].told == Nothing
    case Register(_, _) => true
    case Unregister(_) => true
    case ClearRegistered => true
    case Request(id, _, _, _) => id !in w.loads
    case LookUp(id) => id in w.loads && w.loads[id].phase.Spawned?
    case Learn(id) =>
      id in w.loads && w.loads[id].phase.Waiting?
      && w.loads[id].phase.install in w.installs && w.installs[w.loads[id].phase.install].told != Nothing
    case Check(id) => id in w.loads && w.loads[id].phase.Checking?
    case Fetch(id) => id in w.loads && w.loads[id].phase.Fetching?
    case Cancel(id) => id in w.loads
  }

  function Advance(w: World, k: nat, install: Install): World {
    w.(installs := w.installs[k := install])
  }

  function Enter(w: World, id: nat, phase: Phase): World
    requires id in w.loads
  {
    w.(loads := w.loads[id := w.loads[id].(phase := phase)])
  }

  function Registered(w: World, url: nat): Option<Item> {
    if url in w.registry then Some(w.registry[url]) else None
  }

  function SheetAt(w: World, url: nat): Option<nat> {
    if url in w.registry && w.registry[url].Sheet? then Some(w.registry[url].content) else None
  }

  /** The first hold of an install that covers the load. */
  function FirstCovering(holds: seq<nat>, covering: set<nat>): (found: Option<nat>)
    ensures found.None? <==> forall i :: 0 <= i < |holds| ==> holds[i] !in covering
    ensures found.Some? ==> found.value in holds && found.value in covering
  {
    if holds == [] then None
    else if holds[0] in covering then Some(holds[0])
    else FirstCovering(holds[1..], covering)
  }

  function WithoutId(holds: seq<nat>, k: nat): (r: seq<nat>)
    ensures forall h :: h in r <==> h in holds && h != k
  {
    if holds == [] then []
    else (if holds[0] == k then [] else [holds[0]]) + WithoutId(holds[1..], k)
  }

  /** A load looks for a hold once, and waits for the first that covers it. */
  function LookedUp(w: World, id: nat): World
    requires id in w.loads
  {
    var load := w.loads[id];
    var found := FirstCovering(w.holds, load.covering);
    var standing := set k | k in w.holds && k in load.covering;
    var after :=
      if found.Some? then load.(skipped := standing - {found.value}, phase := Waiting(found.value))
      else load.(phase := Fetching);
    w.(loads := w.loads[id := after])
  }

  function Learned(told: Told, k: nat, style: bool): Phase {
    match told
    case Ended(Done) => if style then Checking else Fetching
    case Ended(FailedWith(message)) => Refused(k, Some(message))
    case _ => Refused(k, None)
  }

  function Do(w: World, step: Step): World
    requires Enabled(w, step)
  {
    match step
    case PlaceHold(k) => Advance(w, k, Install(Running, Nothing)).(holds := w.holds + [k])
    case Put(_, url, item) => w.(registry := w.registry[url := item])
    case Return(k, ending) => Advance(w, k, w.installs[k].(progress := Returned(ending)))
    case Release(k) =>
      Advance(w, k, w.installs[k].(progress := Released(w.installs[k].progress.ending))).(holds := WithoutId(w.holds, k))
    case Tell(k) => Advance(w, k, Install(Sent, Ended(w.installs[k].progress.ending)))
    case Abandon(k) => Advance(w, k, w.installs[k].(told := Closed))
    case Register(url, item) => w.(registry := w.registry[url := item])
    case Unregister(url) => w.(registry := w.registry - {url})
    case ClearRegistered => w.(registry := map[])
    case Request(id, url, covering, style) =>
      var sheet := SheetAt(w, url);
      var phase := if style && sheet.Some? then Answered(sheet.value) else Spawned;
      w.(loads := w.loads[id := Load(url, covering, w.installs.Keys, style, {}, phase)])
    case LookUp(id) => LookedUp(w, id)
    case Learn(id) =>
      var k := w.loads[id].phase.install;
      Enter(w, id, Learned(w.installs[k].told, k, w.loads[id].style))
    case Check(id) =>
      var sheet := SheetAt(w, w.loads[id].url);
      Enter(w, id, if sheet.Some? then Answered(sheet.value) else Fetching)
    case Fetch(id) => Enter(w, id, Fetched(Registered(w, w.loads[id].url)))
    case Cancel(id) => Enter(w, id, Dropped)
  }

  ghost predicate Next(w: World, v: World) {
    exists step :: Enabled(w, step) && v == Do(w, step)
  }

  ghost predicate Linked(run: seq<World>, i: nat)
    requires 0 < i < |run|
  {
    Next(run[i - 1], run[i])
  }

  ghost predicate IsRun(run: seq<World>) {
    && run != []
    && run[0] == INITIAL
    && forall i {:trigger Linked(run, i)} :: 0 < i < |run| ==> Linked(run, i)
  }

  /** The install has made its last registration. */
  predicate Complete(w: World, k: nat) {
    k in w.installs && !w.installs[k].progress.Running?
  }

  /** A hold stands from before the first registration to behind the last, and
      the answer comes after it is gone. */
  predicate InstallOk(w: World, k: nat)
    requires k in w.installs
  {
    && (k in w.holds <==> w.installs[k].progress.Running? || w.installs[k].progress.Returned?)
    && (w.installs[k].progress.Sent? <==> w.installs[k].told.Ended?)
  }

  predicate InstallsOk(w: World) {
    && (forall k :: k in w.installs ==> InstallOk(w, k))
    && (forall k :: k in w.holds ==> k in w.installs)
  }

  /** Every install that covers the load and began before it is complete,
      apart from those it skipped. */
  predicate AllComplete(w: World, load: Load, apart: set<nat>) {
    forall k :: k in load.covering && k in load.before && k !in apart ==> Complete(w, k)
  }

  predicate LoadOk(w: World, load: Load) {
    && load.before <= w.installs.Keys
    && match load.phase
       case Spawned => load.skipped == {}
       case Waiting(k) => k in load.covering && k in w.installs && AllComplete(w, load, load.skipped + {k})
       case Checking => load.style && AllComplete(w, load, load.skipped)
       case Fetching => AllComplete(w, load, load.skipped)
       case Fetched(_) => AllComplete(w, load, load.skipped)
       case Refused(k, Some(message)) =>
         k in load.covering && k in w.installs && w.installs[k].told == Ended(FailedWith(message))
       case Refused(k, None) => k in load.covering && k in w.installs && w.installs[k].told == Closed
       case _ => true
  }

  predicate LoadsOk(w: World) {
    forall id :: id in w.loads ==> LoadOk(w, w.loads[id])
  }

  predicate Inv(w: World) {
    InstallsOk(w) && LoadsOk(w)
  }

  lemma InstallsStay(w: World, step: Step)
    requires Inv(w) && Enabled(w, step)
    ensures InstallsOk(Do(w, step))
  {
    var v := Do(w, step);
    forall k | k in v.installs ensures InstallOk(v, k) {
      assert k in w.installs ==> InstallOk(w, k);
    }
  }

  /** No step takes an install's completion, or its answer, back. */
  lemma CompletionStays(w: World, step: Step, k: nat)
    requires InstallsOk(w) && Enabled(w, step) && k in w.installs
    ensures k in Do(w, step).installs
    ensures Complete(w, k) ==> Complete(Do(w, step), k)
    ensures w.installs[k].told != Nothing ==> Do(w, step).installs[k].told == w.installs[k].told
  {
    assert InstallOk(w, k);
  }

  lemma UntouchedLoadStays(w: World, step: Step, id: nat)
    requires Inv(w) && Enabled(w, step) && id in w.loads
    requires id in Do(w, step).loads && Do(w, step).loads[id] == w.loads[id]
    ensures LoadOk(Do(w, step), w.loads[id])
  {
    assert LoadOk(w, w.loads[id]);
    forall k | k in w.installs
      ensures k in Do(w, step).installs && (Complete(w, k) ==> Complete(Do(w, step), k))
      ensures w.installs[k].told != Nothing ==> Do(w, step).installs[k].told == w.installs[k].told
    {
      CompletionStays(w, step, k);
    }
  }

  lemma LookUpFits(w: World, id: nat)
    requires Inv(w) && Enabled(w, LookUp(id))
    ensures LoadOk(LookedUp(w, id), LookedUp(w, id).loads[id])
  {
    assert LoadOk(w, w.loads[id]);
    forall k | k in w.installs && k !in w.holds ensures Complete(w, k) {
      assert InstallOk(w, k);
    }
  }

  lemma LearnFits(w: World, id: nat)
    requires Inv(w) && Enabled(w, Learn(id))
    ensures LoadOk(Do(w, Learn(id)), Do(w, Learn(id)).loads[id])
  {
    assert LoadOk(w, w.loads[id]);
    assert InstallOk(w, w.loads[id].phase.install);
  }

  lemma LoadsStay(w: World, step: Step)
    requires Inv(w) && Enabled(w, step)
    ensures LoadsOk(Do(w, step))
  {
    var v := Do(w, step);
    forall id | id in v.loads ensures LoadOk(v, v.loads[id]) {
      if id in w.loads && v.loads[id] == w.loads[id] {
        UntouchedLoadStays(w, step, id);
      } else {
        assert id in w.loads ==> LoadOk(w, w.loads[id]);
        match step
        case LookUp(i) => LookUpFits(w, i);
        case Learn(i) => LearnFits(w, i);
        case _ =>
      }
    }
  }

  lemma NextKeepsInv(w: World, v: World)
    requires Inv(w) && Next(w, v)
    ensures Inv(v)
  {
    var step :| Enabled(w, step) && v == Do(w, step);
    InstallsStay(w, step);
    LoadsStay(w, step);
  }

  lemma {:induction false} RunsKeep(run: seq<World>, i: nat)
    requires IsRun(run) && i < |run|
    ensures Inv(run[i])
  {
    if i == 0 {
    } else {
      RunsKeep(run, i - 1);
      assert Linked(run, i);
      NextKeepsInv(run[i - 1], run[i]);
    }
  }

  // ------------------------------------------------------------ the theorems

  /** Behind the look-up, and past the wait if there was one. */
  predicate PastTheWait(load: Load) {
    load.phase.Checking? || load.phase.Fetching? || load.phase.Fetched?
  }

  /** With any number of covering installs, a load can only get past its wait
      before one it skipped: one whose hold stood when it looked, behind the
      hold it waited for. */
  lemma NoLoadOvertakesItsInstall(run: seq<World>, i: nat, id: nat, k: nat)
    requires IsRun(run) && i < |run| && id in run[i].loads
    requires k in run[i].loads[id].covering && k in run[i].loads[id].before
    requires PastTheWait(run[i].loads[id])
    ensures Complete(run[i], k) || k in run[i].loads[id].skipped
  {
    RunsKeep(run, i);
    assert LoadOk(run[i], run[i].loads[id]);
  }

  /** Of the installs that cover the load, `k` alone may have its hold in
      place. Others may have ended, or be yet to begin. */
  predicate OneStands(w: World, id: nat, k: nat)
    requires id in w.loads
  {
    forall c :: c in w.loads[id].covering && c in w.holds ==> c == k
  }

  lemma LookUpSkipsNone(w: World, id: nat, k: nat)
    requires Inv(w) && Enabled(w, LookUp(id)) && OneStands(w, id, k)
    ensures id in LookedUp(w, id).loads
    ensures LookedUp(w, id).loads[id].skipped == {} && !LookedUp(w, id).loads[id].phase.Spawned?
  {
    assert LoadOk(w, w.loads[id]);
  }

  predicate IsStepOf(step: Step, id: nat) {
    match step
    case Request(i, _, _, _) => i == id
    case LookUp(i) => i == id
    case Learn(i) => i == id
    case Check(i) => i == id
    case Fetch(i) => i == id
    case Cancel(i) => i == id
    case _ => false
  }

  lemma OthersLeaveTheLoad(w: World, step: Step, id: nat)
    requires Enabled(w, step) && !IsStepOf(step, id)
    ensures id in w.loads <==> id in Do(w, step).loads
    ensures id in w.loads ==> Do(w, step).loads[id] == w.loads[id]
  {
  }

  lemma OwnStepMoves(w: World, step: Step, id: nat)
    requires Enabled(w, step) && IsStepOf(step, id) && !step.Request? && !step.LookUp?
    ensures id in w.loads && id in Do(w, step).loads
    ensures Do(w, step).loads[id] == w.loads[id].(phase := Do(w, step).loads[id].phase)
    ensures !Do(w, step).loads[id].phase.Spawned? && !Do(w, step).loads[id].phase.Waiting?
    ensures PastTheWait(Do(w, step).loads[id]) ==> w.loads[id].phase.Waiting? || PastTheWait(w.loads[id])
  {
  }

  lemma NextSkipsNoMore(w: World, v: World, id: nat)
    requires Next(w, v) && id in w.loads && !w.loads[id].phase.Spawned?
    ensures id in v.loads && !v.loads[id].phase.Spawned?
    ensures v.loads[id] == w.loads[id].(phase := v.loads[id].phase)
  {
    var step :| Enabled(w, step) && v == Do(w, step);
    if IsStepOf(step, id) {
      OwnStepMoves(w, step, id);
    } else {
      OthersLeaveTheLoad(w, step, id);
    }
  }

  /** What a load skips is settled when it looks. */
  lemma {:induction false} SkipsStay(run: seq<World>, j: nat, i: nat, id: nat)
    requires IsRun(run) && j <= i < |run| && id in run[j].loads && !run[j].loads[id].phase.Spawned?
    ensures id in run[i].loads && !run[i].loads[id].phase.Spawned?
    ensures run[i].loads[id] == run[j].loads[id].(phase := run[i].loads[id].phase)
    decreases i
  {
    if i > j {
      SkipsStay(run, j, i - 1, id);
      assert Linked(run, i);
      NextSkipsNoMore(run[i - 1], run[i], id);
    }
  }

  /** Where one covering install has its hold in place when a load looks, in
      every order of release, answer and look-up: once the load is past its
      wait, every install that covers its URL and was placed before the load
      was requested has made its last registration. */
  lemma OneCoverIsNeverOvertaken(run: seq<World>, j: nat, i: nat, id: nat, k: nat)
    requires IsRun(run) && 0 < j <= i < |run|
    requires Enabled(run[j - 1], LookUp(id)) && run[j] == Do(run[j - 1], LookUp(id))
    requires OneStands(run[j - 1], id, k)
    requires id in run[i].loads && PastTheWait(run[i].loads[id])
    ensures forall c :: c in run[i].loads[id].covering && c in run[i].loads[id].before ==> Complete(run[i], c)
  {
    RunsKeep(run, j - 1);
    LookUpSkipsNone(run[j - 1], id, k);
    SkipsStay(run, j, i, id);
    forall c | c in run[i].loads[id].covering && c in run[i].loads[id].before ensures Complete(run[i], c) {
      NoLoadOvertakesItsInstall(run, i, id, c);
    }
  }

  predicate HasLooked(load: Load) {
    load.phase.Waiting? || PastTheWait(load)
  }

  lemma LookUpMoves(w: World, v: World, id: nat)
    requires Next(w, v) && id in v.loads && HasLooked(v.loads[id])
    ensures id in w.loads
    ensures HasLooked(w.loads[id]) || (Enabled(w, LookUp(id)) && v == Do(w, LookUp(id)))
  {
    var step :| Enabled(w, step) && v == Do(w, step);
    if !IsStepOf(step, id) {
      OthersLeaveTheLoad(w, step, id);
    } else if !step.Request? && !step.LookUp? {
      OwnStepMoves(w, step, id);
    }
  }

  /** No load gets past its wait without a look-up. */
  lemma {:induction false} LookUpBehind(run: seq<World>, i: nat, id: nat) returns (j: nat)
    requires IsRun(run) && i < |run| && id in run[i].loads
    requires HasLooked(run[i].loads[id])
    ensures 0 < j <= i && Enabled(run[j - 1], LookUp(id)) && run[j] == Do(run[j - 1], LookUp(id))
  {
    assert Linked(run, i);
    LookUpMoves(run[i - 1], run[i], id);
    if HasLooked(run[i - 1].loads[id]) {
      j := LookUpBehind(run, i - 1, id);
    } else {
      j := i;
    }
  }

  /** A run beside the steps it took. */
  ghost predicate IsTrace(run: seq<World>, steps: seq<Step>) {
    && |run| == |steps| + 1
    && run[0] == INITIAL
    && forall i {:trigger Took(run, steps, i)} :: 0 <= i < |steps| ==> Took(run, steps, i)
  }

  ghost predicate Took(run: seq<World>, steps: seq<Step>, i: nat)
    requires i < |steps| && |run| == |steps| + 1
  {
    Enabled(run[i], steps[i]) && run[i + 1] == Do(run[i], steps[i])
  }

  lemma TraceIsRun(run: seq<World>, steps: seq<Step>)
    requires IsTrace(run, steps)
    ensures IsRun(run)
  {
    forall i | 0 < i < |run| ensures Linked(run, i) {
      assert Took(run, steps, i - 1);
    }
  }

  predicate Writes(step: Step, url: nat) {
    match step
    case Put(_, u, _) => u == url
    case Register(u, _) => u == url
    case Unregister(u) => u == url
    case ClearRegistered => true
    case _ => false
  }

  /** A registration stands until the next one of its URL. */
  lemma {:induction false} WriteStands(run: seq<World>, steps: seq<Step>, p: nat, f: nat, k: nat, url: nat, item: Item)
    requires IsTrace(run, steps) && p < f < |run|
    requires steps[p] == Put(k, url, item) && forall q :: p < q < f ==> !Writes(steps[q], url)
    ensures Registered(run[f], url) == Some(item)
  {
    assert Took(run, steps, f - 1);
    if f > p + 1 {
      WriteStands(run, steps, p, f - 1, k, url, item);
      WriteKept(run[f - 1], steps[f - 1], url);
    }
  }

  lemma WriteKept(w: World, step: Step, url: nat)
    requires Enabled(w, step) && !Writes(step, url)
    ensures Registered(Do(w, step), url) == Registered(w, url)
  {
  }

  lemma {:induction false} CompleteStays(run: seq<World>, i: nat, j: nat, k: nat)
    requires IsRun(run) && i <= j < |run| && Complete(run[i], k)
    ensures Complete(run[j], k)
    decreases j
  {
    if i < j {
      CompleteStays(run, i, j - 1, k);
      RunsKeep(run, j - 1);
      assert Linked(run, j);
      NextStaysComplete(run[j - 1], run[j], k);
    }
  }

  lemma NextStaysComplete(w: World, v: World, k: nat)
    requires Inv(w) && Next(w, v) && Complete(w, k)
    ensures Complete(v, k)
  {
    var step :| Enabled(w, step) && v == Do(w, step);
    CompletionStays(w, step, k);
  }

  /** The load's look-up, and its step `f` past the wait, in a trace where one
      install `k` that covers it has its hold in place at the look-up. */
  ghost predicate LooksThenGoes(run: seq<World>, steps: seq<Step>, j: nat, f: nat, id: nat, k: nat) {
    && IsTrace(run, steps) && j < f < |steps|
    && steps[j] == LookUp(id) && (steps[f] == Fetch(id) || steps[f] == Check(id))
    && id in run[j].loads && OneStands(run[j], id, k)
    && k in run[j].loads[id].covering && k in run[j].loads[id].before
  }

  lemma LooksThenGoesComplete(run: seq<World>, steps: seq<Step>, j: nat, f: nat, id: nat, k: nat)
    requires LooksThenGoes(run, steps, j, f, id, k)
    ensures IsRun(run) && Complete(run[f], k)
    ensures id in run[f].loads && run[f].loads[id].url == run[j].loads[id].url
  {
    TraceIsRun(run, steps);
    assert Took(run, steps, j) && Took(run, steps, f);
    RunsKeep(run, j);
    LookUpSkipsNone(run[j], id, k);
    SkipsStay(run, j + 1, f, id);
    OneCoverIsNeverOvertaken(run, j + 1, f, id, k);
  }

  /** Everything the install ever registers, it registered before the load
      went past its wait. */
  lemma NothingIsRegisteredLate(run: seq<World>, steps: seq<Step>, j: nat, f: nat, id: nat, k: nat, q: nat)
    requires LooksThenGoes(run, steps, j, f, id, k) && f <= q < |steps|
    ensures !(steps[q].Put? && steps[q].install == k)
  {
    LooksThenGoesComplete(run, steps, j, f, id, k);
    CompleteStays(run, f, q, k);
    assert Took(run, steps, q);
  }

  /** What the install it waited for registered under the load's URL, and
      nobody wrote over, is what the load sees: at the transport, or as its
      answer when it is a sheet a stylesheet load looks for. */
  lemma LoadsSeeWhatWasInstalled(
      run: seq<World>, steps: seq<Step>, j: nat, f: nat, id: nat, k: nat, p: nat, item: Item)
    requires LooksThenGoes(run, steps, j, f, id, k)
    requires p < |steps| && steps[p] == Put(k, run[j].loads[id].url, item)
    requires forall q :: p < q < f ==> !Writes(steps[q], run[j].loads[id].url)
    ensures p < f && id in run[f + 1].loads
    ensures steps[f].Fetch? ==> run[f + 1].loads[id].phase == Fetched(Some(item))
    ensures steps[f].Check? ==>
              run[f + 1].loads[id].phase == if item.Sheet? then Answered(item.content) else Fetching
  {
    if p >= f {
      NothingIsRegisteredLate(run, steps, j, f, id, k, p);
    }
    LooksThenGoesComplete(run, steps, j, f, id, k);
    WriteStands(run, steps, p, f, k, run[j].loads[id].url, item);
    assert Took(run, steps, f);
  }

  /** An overlapping install is not waited for: a load that waited for the
      first goes on to the transport while a skipped one still registers. */
  lemma SkippedInstallIsOvertaken(w: World, id: nat, first: nat, k: nat)
    requires Inv(w) && id in w.loads && !w.loads[id].style && w.loads[id].phase == Waiting(first)
    requires first in w.installs && w.installs[first].told == Ended(Done)
    requires k in w.loads[id].covering && k in w.installs && w.installs[k].progress.Running?
    ensures Enabled(w, Learn(id)) && Enabled(Do(w, Learn(id)), Fetch(id))
    ensures var v := Do(Do(w, Learn(id)), Fetch(id)); v.loads[id].phase.Fetched? && !Complete(v, k)
  {
  }

  lemma Extends(run: seq<World>, step: Step)
    requires IsRun(run) && Enabled(run[|run| - 1], step)
    ensures IsRun(run + [Do(run[|run| - 1], step)])
  {
    var more := run + [Do(run[|run| - 1], step)];
    forall i: nat | 0 < i < |more| ensures Linked(more, i) {
      if i < |run| {
        assert Linked(run, i);
        assert more[i] == run[i] && more[i - 1] == run[i - 1];
      } else {
        assert Next(more[i - 1], more[i]);
      }
    }
  }

  /** Two running installs, and a load both cover that waits for the first. */
  predicate Overlapping(w: World) {
    && 0 in w.installs && w.installs[0] == Install(Running, Nothing)
    && 1 in w.installs && w.installs[1] == Install(Running, Nothing)
    && 0 in w.loads && w.loads[0] == Load(7, {0, 1}, {0, 1}, false, {1}, Waiting(0))
  }

  /** Two installs have begun. */
  lemma TwoBegin() returns (run: seq<World>)
    ensures IsRun(run)
    ensures run[|run| - 1] == World(map[0 := Install(Running, Nothing), 1 := Install(Running, Nothing)], [0, 1], map[], map[])
  {
    run := [INITIAL];
    Extends(run, PlaceHold(0));
    run := run + [Do(INITIAL, PlaceHold(0))];
    Extends(run, PlaceHold(1));
    run := run + [Do(run[1], PlaceHold(1))];
  }

  lemma FirstOfTwo(w: World)
    requires w.holds == [0, 1] && 0 in w.loads && w.loads[0] == Load(7, {0, 1}, {0, 1}, false, {}, Spawned)
    ensures LookedUp(w, 0) == w.(loads := w.loads[0 := Load(7, {0, 1}, {0, 1}, false, {1}, Waiting(0))])
  {
    assert FirstCovering(w.holds, {0, 1}) == Some(0);
    assert (set k | k in w.holds && k in w.loads[0].covering) == {0, 1};
    assert LookedUp(w, 0).loads[0].skipped == {0, 1} - {0} == {1};
  }

  /** Two installs begin, and a load that both cover is requested and waits. */
  lemma OverlapBegins() returns (run: seq<World>)
    ensures IsRun(run) && Overlapping(run[|run| - 1])
  {
    run := TwoBegin();
    var w := run[|run| - 1];
    assert w.installs.Keys == {0, 1};
    var v := Do(w, Request(0, 7, {0, 1}, false));
    Extends(run, Request(0, 7, {0, 1}, false));
    run := run + [v];
    FirstOfTwo(v);
    Extends(run, LookUp(0));
    run := run + [Do(v, LookUp(0))];
  }

  /** The first of the two ends, its answer is told, and the load goes on. */
  lemma OverlapEnds(run: seq<World>) returns (more: seq<World>)
    requires IsRun(run) && Overlapping(run[|run| - 1])
    ensures IsRun(more)
    ensures var w := more[|more| - 1];
            && 0 in w.loads && w.loads[0] == Load(7, {0, 1}, {0, 1}, false, {1}, Waiting(0))
            && 0 in w.installs && w.installs[0].told == Ended(Done)
            && 1 in w.installs && w.installs[1].progress.Running?
  {
    more := run;
    Extends(more, Return(0, Done));
    more := more + [Do(more[|more| - 1], Return(0, Done))];
    Extends(more, Release(0));
    more := more + [Do(more[|more| - 1], Release(0))];
    Extends(more, Tell(0));
    more := more + [Do(more[|more| - 1], Tell(0))];
  }

  /** Such a load exists: two installs cover one URL, and a load that began
      after both reaches the transport while the second still registers. */
  lemma OverlapOvertakes() returns (run: seq<World>)
    ensures IsRun(run)
    ensures var w := run[|run| - 1];
            0 in w.loads && 1 in w.loads[0].covering && 1 in w.loads[0].before
            && w.loads[0].phase.Fetched? && !Complete(w, 1)
  {
    run := OverlapBegins();
    run := OverlapEnds(run);
    RunsKeep(run, |run| - 1);
    SkippedInstallIsOvertaken(run[|run| - 1], 0, 0, 1);
    Extends(run, Learn(0));
    run := run + [Do(run[|run| - 1], Learn(0))];
    Extends(run, Fetch(0));
    run := run + [Do(run[|run| - 1], Fetch(0))];
  }

  /** A load is refused only with the failure of an install that covers it,
      or because that install ended without an answer. */
  lemma RefusalsAreTheInstalls(run: seq<World>, i: nat, id: nat)
    requires IsRun(run) && i < |run| && id in run[i].loads && run[i].loads[id].phase.Refused?
    ensures var k := run[i].loads[id].phase.install;
            k in run[i].loads[id].covering && k in run[i].installs
            && match run[i].loads[id].phase.message
               case Some(message) => run[i].installs[k].told == Ended(FailedWith(message))
               case None => run[i].installs[k].told == Closed
  {
    RunsKeep(run, i);
    assert LoadOk(run[i], run[i].loads[id]);
  }

  /** No load waits for nothing: it can learn the answer, or the install it
      waits for still has a step to take towards giving it. */
  lemma NobodyWaitsForNothing(run: seq<World>, i: nat, id: nat)
    requires IsRun(run) && i < |run| && id in run[i].loads && run[i].loads[id].phase.Waiting?
    ensures var k := run[i].loads[id].phase.install;
            || Enabled(run[i], Learn(id))
            || Enabled(run[i], Return(k, Done))
            || Enabled(run[i], Release(k))
            || Enabled(run[i], Tell(k))
  {
    RunsKeep(run, i);
    assert LoadOk(run[i], run[i].loads[id]);
    assert InstallOk(run[i], run[i].loads[id].phase.install);
  }
}
