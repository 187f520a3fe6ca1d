/**
  The CSS fragments of one bundle and their `@import` edges: the order they
  are emitted in, who imports whom, and what a named section reaches.
 */
module FragmentGraph {
  import opened Options

  /** A fragment's number: a 32-bit signed integer. */
  newtype CssId = x: int | -0x8000_0000 <= x < 0x8000_0000

  /** Each fragment the bundle carries, by `css_id`, with its import list. */
  type Fragments = map<CssId, seq<CssId>>

  /** `importer` has a live `@import` of `imported`: another fragment the bundle carries. */
  predicate Imports(fragments: Fragments, importer: CssId, imported: CssId) {
    importer in fragments && imported in fragments && imported != importer && imported in fragments[importer]
  }

  /** The live imports of `id`, in file order. */
  function LiveImports(fragments: Fragments, id: CssId): (live: seq<CssId>)
    ensures forall m :: m in live <==> Imports(fragments, id, m)
  {
    if id in fragments then Live(fragments, id, fragments[id]) else []
  }

  function Live(fragments: Fragments, id: CssId, imports: seq<CssId>): (live: seq<CssId>)
    ensures forall m :: m in live <==> m in imports && m != id && m in fragments
  {
    if imports == [] then []
    else (if imports[0] != id && imports[0] in fragments then [imports[0]] else []) + Live(fragments, id, imports[1..])
  }

  // ---------------------------------------------------------------------
  // Reachability: a chain of `n` live imports, for any `n`.

  ghost predicate ReachesIn(fragments: Fragments, n: nat, from: CssId, to: CssId) {
    if n == 0 then from == to
    else exists via :: Imports(fragments, from, via) && ReachesIn(fragments, n - 1, via, to)
  }

  ghost predicate Reaches(fragments: Fragments, from: CssId, to: CssId) {
    exists n: nat :: ReachesIn(fragments, n, from, to)
  }

  ghost predicate OnCycle(fragments: Fragments, id: CssId) {
    exists via :: Imports(fragments, id, via) && Reaches(fragments, via, id)
  }

  ghost predicate ReachesCycle(fragments: Fragments, id: CssId) {
    exists c :: Reaches(fragments, id, c) && OnCycle(fragments, c)
  }

  lemma ReachesSelf(fragments: Fragments, id: CssId)
    ensures Reaches(fragments, id, id)
  {
    assert ReachesIn(fragments, 0, id, id);
  }

  lemma ImportThenReach(fragments: Fragments, from: CssId, via: CssId, to: CssId)
    requires Imports(fragments, from, via) && Reaches(fragments, via, to)
    ensures Reaches(fragments, from, to)
  {
    var n: nat :| ReachesIn(fragments, n, via, to);
    assert ReachesIn(fragments, n + 1, from, to);
  }

  lemma {:induction false} ReachThenImportIn(fragments: Fragments, n: nat, from: CssId, via: CssId, to: CssId)
    requires ReachesIn(fragments, n, from, via) && Imports(fragments, via, to)
    ensures ReachesIn(fragments, n + 1, from, to)
  {
    if n == 0 {
      assert ReachesIn(fragments, 0, to, to);
    } else {
      var next :| Imports(fragments, from, next) && ReachesIn(fragments, n - 1, next, via);
      ReachThenImportIn(fragments, n - 1, next, via, to);
    }
  }

  lemma ReachThenImport(fragments: Fragments, from: CssId, via: CssId, to: CssId)
    requires Reaches(fragments, from, via) && Imports(fragments, via, to)
    ensures Reaches(fragments, from, to)
  {
    var n: nat :| ReachesIn(fragments, n, from, via);
    ReachThenImportIn(fragments, n, from, via, to);
  }

  ghost predicate ClosedUnderImports(fragments: Fragments, s: set<CssId>) {
    forall a, b :: a in s && Imports(fragments, a, b) ==> b in s
  }

  lemma {:induction false} ClosedHoldsReachedIn(fragments: Fragments, s: set<CssId>, n: nat, from: CssId, to: CssId)
    requires ClosedUnderImports(fragments, s) && from in s && ReachesIn(fragments, n, from, to)
    ensures to in s
  {
    if n > 0 {
      var via :| Imports(fragments, from, via) && ReachesIn(fragments, n - 1, via, to);
      ClosedHoldsReachedIn(fragments, s, n - 1, via, to);
    }
  }

  /** A set closed under live imports holds whatever its members reach. */
  lemma ClosedHoldsReached(fragments: Fragments, s: set<CssId>, from: CssId, to: CssId)
    requires ClosedUnderImports(fragments, s) && from in s && Reaches(fragments, from, to)
    ensures to in s
  {
    var n: nat :| ReachesIn(fragments, n, from, to);
    ClosedHoldsReachedIn(fragments, s, n, from, to);
  }

  // ---------------------------------------------------------------------
  // Ids in ascending order.

  ghost predicate Ascending(ids: seq<CssId>) {
    forall i, j :: 0 <= i < j < |ids| ==> ids[i] < ids[j]
  }

  function Sorted(ids: set<CssId>): (r: seq<CssId>)
    ensures Ascending(r) && |r| == |ids|
    ensures forall id :: id in r <==> id in ids
    decreases |ids|
  {
    if ids == {} then []
    else
      var least := Smallest(ids);
      var after := Sorted(ids - {least});
      assert forall j :: 0 <= j < |after| ==> after[j] in after;
      [least] + after
  }

  function Smallest(ids: set<CssId>): (least: CssId)
    requires ids != {}
    ensures least in ids && forall id :: id in ids ==> least <= id
  {
    LeastExists(ids);
    var least :| least in ids && forall id :: id in ids ==> least <= id;
    least
  }

  lemma LeastExists(ids: set<CssId>)
    requires ids != {}
    ensures exists least :: least in ids && forall id :: id in ids ==> least <= id
  {
    var least := Least(ids);
  }

  lemma {:induction false} Least(ids: set<CssId>) returns (least: CssId)
    requires ids != {}
    ensures least in ids && forall id :: id in ids ==> least <= id
    decreases |ids|
  {
    var any :| any in ids;
    assert forall id :: id in ids ==> id == any || id in ids - {any};
    least := any;
    if ids != {any} {
      var other := Least(ids - {any});
      if other < any {
        least := other;
      }
    }
  }

  /** One ascending sequence per set of ids. */
  lemma {:induction false} SortedUnique(a: seq<CssId>, b: seq<CssId>)
    requires Ascending(a) && Ascending(b) && forall id :: id in a <==> id in b
    ensures a == b
  {
    assert b != [] ==> b[0] in a;
    assert a != [] ==> a[0] in b;
    if a != [] && b != [] {
      assert a[0] == b[0];
      forall id ensures id in a[1..] <==> id in b[1..] {
        assert id in a[1..] <==> id in a && id != a[0];
        assert id in b[1..] <==> id in b && id != b[0];
      }
      SortedUnique(a[1..], b[1..]);
      assert a == [a[0]] + a[1..] && b == [b[0]] + b[1..];
    }
  }

  // ---------------------------------------------------------------------
  // The emission order.

  /** `id` is among the first `n` of `s`. */
  ghost predicate Among(s: seq<CssId>, n: nat, id: CssId)
    requires n <= |s|
  {
    exists k :: 0 <= k < n && s[k] == id
  }

  /** Everything `id` imports is among the first `n` of `front`. */
  ghost predicate ReadyAt(fragments: Fragments, front: seq<CssId>, n: nat, id: CssId)
    requires n <= |front|
  {
    forall m :: Imports(fragments, id, m) ==> Among(front, n, m)
  }

  /** The `n`th pick is the smallest fragment not yet emitted that waits for nothing. */
  ghost predicate PickedSmallest(fragments: Fragments, front: seq<CssId>, n: nat)
    requires n < |front|
  {
    && front[n] in fragments && !Among(front, n, front[n]) && ReadyAt(fragments, front, n, front[n])
    && forall other :: other in fragments && !Among(front, n, other) && ReadyAt(fragments, front, n, other) ==> front[n] <= other
  }

  /** `front` is picked smallest-ready-first until nothing is ready. */
  ghost predicate IsFront(fragments: Fragments, front: seq<CssId>) {
    && (forall n {:trigger PickedSmallest(fragments, front, n)} :: 0 <= n < |front| ==> PickedSmallest(fragments, front, n))
    && (forall id :: id in fragments && !Among(front, |front|, id) ==> !ReadyAt(fragments, front, |front|, id))
  }

  ghost predicate IsFragmentOrder(fragments: Fragments, front: seq<CssId>, tail: seq<CssId>) {
    && IsFront(fragments, front) && Ascending(tail)
    && forall id :: id in tail <==> id in fragments && !Among(front, |front|, id)
  }

  /** What each fragment waits for at first: all its live imports. */
  function Blocking(fragments: Fragments): map<CssId, set<CssId>> {
    map id | id in fragments.Keys :: set m | m in LiveImports(fragments, id)
  }

  lemma EmitBegin(fragments: Fragments)
    ensures Emitting(fragments, [], {}, Blocking(fragments))
  {
  }

  method FragmentOrder(fragments: Fragments) returns (ordered: seq<CssId>, ghost front: seq<CssId>, ghost tail: seq<CssId>)
    ensures ordered == front + tail && IsFragmentOrder(fragments, front, tail)
  {
    var ids := Sorted(fragments.Keys);
    var blocking := Blocking(fragments);
    ordered := [];
    var emitted: set<CssId> := {};
    EmitBegin(fragments);
    while true
      invariant Emitting(fragments, ordered, emitted, blocking)
      decreases fragments.Keys - emitted
    {
      var next := FirstUnblocked(ids, emitted, blocking);
      if next.None? {
        break;
      }
      var id := next.value;
      EmitStep(fragments, ordered, emitted, blocking, id);
      emitted := emitted + {id};
      ordered := ordered + [id];
      blocking := Unblocked(blocking, id);
    }
    EmitEnd(fragments, ids, ordered, emitted, blocking);
    front, tail := ordered, Unemitted(ids, emitted);
    ordered := ordered + Unemitted(ids, emitted);
  }

  /** The first id in `ids` that is neither emitted nor waiting. */
  method FirstUnblocked(ids: seq<CssId>, emitted: set<CssId>, blocking: map<CssId, set<CssId>>) returns (r: Option<CssId>)
    requires Ascending(ids) && forall id :: id in ids <==> id in blocking
    ensures match r
            case Some(first) =>
              && first in blocking && first !in emitted && blocking[first] == {}
              && forall id :: id in blocking && id !in emitted && blocking[id] == {} ==> first <= id
            case None => forall id :: id in blocking && id !in emitted ==> blocking[id] != {}
  {
    for i := 0 to |ids|
      invariant forall k :: 0 <= k < i ==> ids[k] in emitted || blocking[ids[k]] != {}
    {
      assert ids[i] in ids;
      if ids[i] !in emitted && blocking[ids[i]] == {} {
        return Some(ids[i]);
      }
    }
    return None;
  }

  /** The ids not emitted, in the order they are in. */
  function Unemitted(ids: seq<CssId>, emitted: set<CssId>): seq<CssId> {
    if ids == [] then []
    else (if ids[0] in emitted then [] else [ids[0]]) + Unemitted(ids[1..], emitted)
  }

  lemma {:induction false} UnemittedHolds(ids: seq<CssId>, emitted: set<CssId>, id: CssId)
    ensures id in Unemitted(ids, emitted) <==> id in ids && id !in emitted
  {
    if ids != [] {
      UnemittedHolds(ids[1..], emitted, id);
      assert id in ids <==> id == ids[0] || id in ids[1..];
    }
  }

  lemma {:induction false} UnemittedAscends(ids: seq<CssId>, emitted: set<CssId>)
    requires Ascending(ids)
    ensures Ascending(Unemitted(ids, emitted))
  {
    if ids != [] {
      var after := Unemitted(ids[1..], emitted);
      UnemittedAscends(ids[1..], emitted);
      forall j | 0 <= j < |after| ensures ids[0] < after[j] {
        UnemittedHolds(ids[1..], emitted, after[j]);
        var k :| 0 <= k < |ids[1..]| && ids[1..][k] == after[j];
        assert ids[k + 1] == after[j];
      }
    }
  }

  function Unblocked(blocking: map<CssId, set<CssId>>, id: CssId): map<CssId, set<CssId>> {
    map waiting | waiting in blocking :: blocking[waiting] - {id}
  }

  /** What the emission loop maintains. */
  ghost predicate Emitting(fragments: Fragments, ordered: seq<CssId>, emitted: set<CssId>, blocking: map<CssId, set<CssId>>) {
    && (forall id :: id in emitted ==> id in fragments)
    && (forall id :: id in emitted <==> Among(ordered, |ordered|, id))
    && blocking.Keys == fragments.Keys
    && (forall id, m :: id in fragments ==> (m in blocking[id] <==> Imports(fragments, id, m) && m !in emitted))
    && (forall n {:trigger PickedSmallest(fragments, ordered, n)} :: 0 <= n < |ordered| ==> PickedSmallest(fragments, ordered, n))
  }

  lemma UnblockedIsReady(fragments: Fragments, ordered: seq<CssId>, emitted: set<CssId>, blocking: map<CssId, set<CssId>>, id: CssId)
    requires Emitting(fragments, ordered, emitted, blocking) && id in fragments
    ensures blocking[id] == {} <==> ReadyAt(fragments, ordered, |ordered|, id)
  {
    if blocking[id] != {} {
      var m :| m in blocking[id];
      assert Imports(fragments, id, m) && !Among(ordered, |ordered|, m);
    }
  }

  lemma EmitStep(fragments: Fragments, ordered: seq<CssId>, emitted: set<CssId>, blocking: map<CssId, set<CssId>>, id: CssId)
    requires Emitting(fragments, ordered, emitted, blocking)
    requires id in blocking && id !in emitted && blocking[id] == {}
    requires forall other :: other in blocking && other !in emitted && blocking[other] == {} ==> id <= other
    ensures Emitting(fragments, ordered + [id], emitted + {id}, Unblocked(blocking, id))
  {
    forall other | other in fragments
      ensures blocking[other] == {} <==> ReadyAt(fragments, ordered, |ordered|, other)
    {
      UnblockedIsReady(fragments, ordered, emitted, blocking, other);
    }
    PickSnoc(fragments, ordered, id);
  }

  lemma EmitEnd(fragments: Fragments, ids: seq<CssId>, ordered: seq<CssId>, emitted: set<CssId>,
                blocking: map<CssId, set<CssId>>)
    requires Ascending(ids) && forall id :: id in ids <==> id in fragments
    requires Emitting(fragments, ordered, emitted, blocking)
    requires forall id :: id in blocking && id !in emitted ==> blocking[id] != {}
    ensures IsFragmentOrder(fragments, ordered, Unemitted(ids, emitted))
  {
    UnemittedAscends(ids, emitted);
    forall id ensures id in Unemitted(ids, emitted) <==> id in fragments && id !in emitted {
      UnemittedHolds(ids, emitted, id);
    }
    forall id | id in fragments && !Among(ordered, |ordered|, id) ensures !ReadyAt(fragments, ordered, |ordered|, id) {
      UnblockedIsReady(fragments, ordered, emitted, blocking, id);
    }
  }

  lemma AmongSnoc(s: seq<CssId>, last: CssId, n: nat)
    requires n <= |s|
    ensures forall id :: Among(s + [last], n, id) <==> Among(s, n, id)
    ensures forall id :: Among(s + [last], |s| + 1, id) <==> Among(s, |s|, id) || id == last
  {
    forall id ensures Among(s + [last], n, id) <==> Among(s, n, id) {
      assert forall k :: 0 <= k < n ==> (s + [last])[k] == s[k];
    }
    forall id ensures Among(s + [last], |s| + 1, id) <==> Among(s, |s|, id) || id == last {
      assert forall k :: 0 <= k < |s| ==> (s + [last])[k] == s[k];
      assert (s + [last])[|s|] == last;
    }
  }

  lemma PickSnoc(fragments: Fragments, ordered: seq<CssId>, id: CssId)
    requires forall n {:trigger PickedSmallest(fragments, ordered, n)} :: 0 <= n < |ordered| ==> PickedSmallest(fragments, ordered, n)
    requires id in fragments && !Among(ordered, |ordered|, id) && ReadyAt(fragments, ordered, |ordered|, id)
    requires forall other ::
        other in fragments && !Among(ordered, |ordered|, other) && ReadyAt(fragments, ordered, |ordered|, other) ==> id <= other
    ensures forall n {:trigger PickedSmallest(fragments, ordered + [id], n)} :: 0 <= n < |ordered| + 1 ==> PickedSmallest(fragments, ordered + [id], n)
    ensures forall x :: Among(ordered + [id], |ordered| + 1, x) <==> Among(ordered, |ordered|, x) || x == id
  {
    var longer := ordered + [id];
    AmongSnoc(ordered, id, |ordered|);
    forall n | 0 <= n < |ordered| + 1 ensures PickedSmallest(fragments, longer, n) {
      AmongSnoc(ordered, id, n);
      assert forall x :: ReadyAt(fragments, longer, n, x) <==> ReadyAt(fragments, ordered, n, x);
      if n < |ordered| {
        assert PickedSmallest(fragments, ordered, n);
        assert longer[n] == ordered[n];
      } else {
        assert longer[n] == id;
      }
    }
  }

  // ---------------------------------------------------------------------
  // What the order promises.

  ghost predicate Distinct(s: seq<CssId>) {
    forall i, j :: 0 <= i < j < |s| ==> s[i] != s[j]
  }

  lemma FrontIsDistinct(fragments: Fragments, front: seq<CssId>)
    requires IsFront(fragments, front)
    ensures Distinct(front)
  {
    forall i, j | 0 <= i < j < |front| ensures front[i] != front[j] {
      assert PickedSmallest(fragments, front, j);
      assert front[i] == front[j] ==> Among(front, j, front[j]);
    }
  }

  /** Every fragment is emitted exactly once. */
  lemma OrderIsPermutation(fragments: Fragments, front: seq<CssId>, tail: seq<CssId>)
    requires IsFragmentOrder(fragments, front, tail)
    ensures Distinct(front + tail)
    ensures forall id :: id in front + tail <==> id in fragments
  {
    FrontIsDistinct(fragments, front);
    forall i, j | 0 <= i < |front| && 0 <= j < |tail| ensures front[i] != tail[j] {
      assert tail[j] in tail;
      assert Among(front, |front|, front[i]);
    }
    forall id ensures id in front + tail <==> id in fragments {
      if id in front {
        var i :| 0 <= i < |front| && front[i] == id;
        assert PickedSmallest(fragments, front, i);
      }
      assert Among(front, |front|, id) <==> id in front;
    }
  }

  ghost function FirstOf(s: seq<CssId>, n: nat): (r: set<CssId>)
    requires n <= |s|
    ensures forall id :: id in r <==> Among(s, n, id)
  {
    set k | 0 <= k < n :: s[k]
  }

  lemma PrefixIsClosed(fragments: Fragments, front: seq<CssId>, n: nat)
    requires IsFront(fragments, front) && n <= |front|
    ensures ClosedUnderImports(fragments, FirstOf(front, n))
  {
    forall a, b | Among(front, n, a) && Imports(fragments, a, b) ensures Among(front, n, b) {
      var k :| 0 <= k < n && front[k] == a;
      assert PickedSmallest(fragments, front, k);
      assert Among(front, k, b);
    }
  }

  /** No smallest-ready-first fragment is on a cycle. */
  lemma FrontIsAcyclic(fragments: Fragments, front: seq<CssId>, n: nat)
    requires IsFront(fragments, front) && n < |front|
    ensures !OnCycle(fragments, front[n])
  {
    PrefixIsClosed(fragments, front, n);
    assert PickedSmallest(fragments, front, n);
    forall via | Imports(fragments, front[n], via) ensures !Reaches(fragments, via, front[n]) {
      assert Among(front, n, via);
      if Reaches(fragments, via, front[n]) {
        ClosedHoldsReached(fragments, FirstOf(front, n), via, front[n]);
      }
    }
  }

  ghost predicate HasImportIn(fragments: Fragments, s: set<CssId>, id: CssId) {
    exists m :: m in s && Imports(fragments, id, m)
  }

  /** In a set each member of which imports a member, every member reaches a
      cycle: a walk inside the set must meet a fragment it has passed. */
  lemma {:induction false} StuckReachesCycle(fragments: Fragments, stuck: set<CssId>, passed: set<CssId>, at: CssId)
    requires at in stuck && passed <= stuck && at !in passed
    requires forall p :: p in passed ==> Reaches(fragments, p, at)
    requires forall t {:trigger HasImportIn(fragments, stuck, t)} :: t in stuck ==> HasImportIn(fragments, stuck, t)
    ensures ReachesCycle(fragments, at)
    decreases |stuck - passed|
  {
    assert HasImportIn(fragments, stuck, at);
    var m :| m in stuck && Imports(fragments, at, m);
    ReachesSelf(fragments, at);
    if m in passed {
      assert OnCycle(fragments, at);
    } else {
      assert m != at;
      forall p | p in passed + {at} ensures Reaches(fragments, p, m) {
        ReachThenImport(fragments, p, at, m);
      }
      assert stuck - (passed + {at}) == (stuck - passed) - {at};
      StuckReachesCycle(fragments, stuck, passed + {at}, m);
      var c :| Reaches(fragments, m, c) && OnCycle(fragments, c);
      ImportThenReach(fragments, at, m, c);
    }
  }

  /** The fragments left to the end are exactly those that reach an import cycle. */
  lemma TailReachesCycle(fragments: Fragments, front: seq<CssId>, tail: seq<CssId>, id: CssId)
    requires IsFragmentOrder(fragments, front, tail) && id in fragments
    ensures id in tail <==> ReachesCycle(fragments, id)
  {
    if id in tail {
      var stuck := set t | t in tail;
      forall t | t in stuck ensures HasImportIn(fragments, stuck, t) {
        assert !ReadyAt(fragments, front, |front|, t);
      }
      StuckReachesCycle(fragments, stuck, {}, id);
    } else {
      PrefixIsClosed(fragments, front, |front|);
      forall c | Reaches(fragments, id, c) ensures !OnCycle(fragments, c) {
        ClosedHoldsReached(fragments, FirstOf(front, |front|), id, c);
        var k :| 0 <= k < |front| && front[k] == c;
        FrontIsAcyclic(fragments, front, k);
      }
    }
  }

  ghost predicate Precedes(s: seq<CssId>, a: CssId, b: CssId) {
    exists i, j :: 0 <= i < j < |s| && s[i] == a && s[j] == b
  }

  /** Every fragment that reaches no cycle comes after all it imports. */
  lemma ImportsPrecede(fragments: Fragments, front: seq<CssId>, tail: seq<CssId>, id: CssId, imported: CssId)
    requires IsFragmentOrder(fragments, front, tail)
    requires Imports(fragments, id, imported) && !ReachesCycle(fragments, id)
    ensures Precedes(front + tail, imported, id)
  {
    TailReachesCycle(fragments, front, tail, id);
    var j :| 0 <= j < |front| && front[j] == id;
    assert PickedSmallest(fragments, front, j);
    assert Among(front, j, imported);
    var i :| 0 <= i < j && front[i] == imported;
    assert (front + tail)[i] == imported && (front + tail)[j] == id;
  }

  lemma AscendingPositions(s: seq<CssId>, a: CssId, b: CssId) returns (i: nat, j: nat)
    requires Ascending(s) && a in s && b in s && a < b
    ensures i < j < |s| && s[i] == a && s[j] == b
  {
    i :| 0 <= i < |s| && s[i] == a;
    j :| 0 <= j < |s| && s[j] == b;
  }

  /** The ones that do come after the ones that do not, in id order. */
  lemma CyclesComeLast(fragments: Fragments, front: seq<CssId>, tail: seq<CssId>, a: CssId, b: CssId)
    requires IsFragmentOrder(fragments, front, tail) && a in fragments && b in fragments && a != b
    requires ReachesCycle(fragments, b) && (ReachesCycle(fragments, a) ==> a < b)
    ensures Precedes(front + tail, a, b)
  {
    TailReachesCycle(fragments, front, tail, a);
    TailReachesCycle(fragments, front, tail, b);
    if a in tail {
      var i, j := AscendingPositions(tail, a, b);
      PrecedesInTail(front, tail, i, j);
    } else {
      var i :| 0 <= i < |front| && front[i] == a;
      var j :| 0 <= j < |tail| && tail[j] == b;
      PrecedesAcross(front, tail, i, j);
    }
  }

  lemma PrecedesInTail(front: seq<CssId>, tail: seq<CssId>, i: nat, j: nat)
    requires i < j < |tail|
    ensures Precedes(front + tail, tail[i], tail[j])
  {
    var order, n := front + tail, |front|;
    assert order[n + i] == tail[i] && order[n + j] == tail[j];
  }

  lemma PrecedesAcross(front: seq<CssId>, tail: seq<CssId>, i: nat, j: nat)
    requires i < |front| && j < |tail|
    ensures Precedes(front + tail, front[i], tail[j])
  {
    var order, n := front + tail, |front|;
    assert order[i] == front[i] && order[n + j] == tail[j];
  }

  /** What one front picked the other picked too: neither is longer. */
  lemma {:induction false} FrontsAgree(fragments: Fragments, f: seq<CssId>, g: seq<CssId>, n: nat)
    requires IsFront(fragments, f) && IsFront(fragments, g) && n <= |f|
    ensures n <= |g| && f[..n] == g[..n]
  {
    if n > 0 {
      var k := n - 1;
      FrontsAgree(fragments, f, g, k);
      NextPickAgrees(fragments, f, g, k);
      assert f[..n] == f[..k] + [f[k]] && g[..n] == g[..k] + [g[k]];
    }
  }

  lemma NextPickAgrees(fragments: Fragments, f: seq<CssId>, g: seq<CssId>, k: nat)
    requires IsFront(fragments, f) && IsFront(fragments, g)
    requires k < |f| && k <= |g| && f[..k] == g[..k]
    ensures k < |g| && f[k] == g[k]
  {
    SamePrefix(fragments, f, g, k);
    assert PickedSmallest(fragments, f, k);
    assert ReadyAt(fragments, g, k, f[k]) && !Among(g, k, f[k]);
    assert k < |g|;
    assert PickedSmallest(fragments, g, k);
  }

  lemma SamePrefix(fragments: Fragments, f: seq<CssId>, g: seq<CssId>, n: nat)
    requires n <= |f| && n <= |g| && f[..n] == g[..n]
    ensures forall id :: Among(f, n, id) <==> Among(g, n, id)
    ensures forall id :: ReadyAt(fragments, f, n, id) <==> ReadyAt(fragments, g, n, id)
  {
    assert forall k :: 0 <= k < n ==> f[..n][k] == f[k] && g[..n][k] == g[k];
    forall id ensures Among(f, n, id) <==> Among(g, n, id) {
      if Among(f, n, id) { var k :| 0 <= k < n && f[k] == id; assert g[k] == id; }
      if Among(g, n, id) { var k :| 0 <= k < n && g[k] == id; assert f[k] == id; }
    }
  }

  /** The order depends on nothing but the import graph. */
  lemma OrderUnique(fragments: Fragments, f: seq<CssId>, s: seq<CssId>, g: seq<CssId>, t: seq<CssId>)
    requires IsFragmentOrder(fragments, f, s) && IsFragmentOrder(fragments, g, t)
    ensures f + s == g + t
  {
    forall id ensures id in s <==> id in t {
      if id in fragments {
        TailReachesCycle(fragments, f, s, id);
        TailReachesCycle(fragments, g, t, id);
      }
    }
    SortedUnique(s, t);
    FrontsAgree(fragments, f, g, |f|);
    FrontsAgree(fragments, g, f, |g|);
    assert f == f[..|f|] && g == g[..|g|];
  }

  // ---------------------------------------------------------------------
  // The worklists.

  /** What a walk down the imports from `root` maintains. */
  ghost predicate Walking(fragments: Fragments, root: CssId, reached: set<CssId>, pending: seq<CssId>) {
    && (root in reached || root in pending)
    && (forall id :: id in reached || id in pending ==> Reaches(fragments, root, id) && (id in fragments || id == root))
    && (forall a, b :: a in reached && Imports(fragments, a, b) ==> b in reached || b in pending)
  }

  lemma WalkStep(fragments: Fragments, root: CssId, reached: set<CssId>, pending: seq<CssId>)
    requires Walking(fragments, root, reached, pending) && pending != []
    ensures var id, rest := pending[|pending| - 1], pending[..|pending| - 1];
            if id in reached then Walking(fragments, root, reached, rest)
            else Walking(fragments, root, reached + {id}, rest + LiveImports(fragments, id))
  {
    var id, rest := pending[|pending| - 1], pending[..|pending| - 1];
    assert pending == rest + [id];
    forall m | Imports(fragments, id, m) ensures Reaches(fragments, root, m) {
      ReachThenImport(fragments, root, id, m);
    }
  }

  lemma WalkEnd(fragments: Fragments, root: CssId, reached: set<CssId>)
    requires Walking(fragments, root, reached, [])
    ensures forall id :: id in reached <==> Reaches(fragments, root, id)
  {
    forall id | Reaches(fragments, root, id) ensures id in reached {
      ClosedHoldsReached(fragments, reached, root, id);
    }
  }

  /** Every fragment a named section pulls in: what its root reaches. */
  method Reachable(fragments: Fragments, root: CssId) returns (reachable: set<CssId>)
    ensures forall id :: id in reachable <==> Reaches(fragments, root, id)
  {
    ReachesSelf(fragments, root);
    reachable := {};
    var pending := [root];
    while pending != []
      invariant Walking(fragments, root, reachable, pending)
      invariant reachable <= fragments.Keys + {root}
      decreases fragments.Keys + {root} - reachable, |pending|
    {
      WalkStep(fragments, root, reachable, pending);
      var id := pending[|pending| - 1];
      assert id in pending;
      pending := pending[..|pending| - 1];
      if id !in reachable {
        reachable := reachable + {id};
        pending := pending + LiveImports(fragments, id);
      }
    }
    WalkEnd(fragments, root, reachable);
  }

  function Importers(importers: map<CssId, set<CssId>>, id: CssId): set<CssId> {
    if id in importers then importers[id] else {}
  }

  /** Each fragment in `walked` is filed under everything it reaches. */
  ghost predicate Filed(fragments: Fragments, walked: set<CssId>, importers: map<CssId, set<CssId>>) {
    && importers.Keys <= fragments.Keys
    && forall id, importer :: importer in Importers(importers, id) <==>
         importer in fragments && importer in walked && Reaches(fragments, importer, id)
  }

  /** `importers` is `before` with `importer` filed under all of `reached`. */
  ghost predicate FiledUnder(before: map<CssId, set<CssId>>, importer: CssId, reached: set<CssId>,
                             importers: map<CssId, set<CssId>>) {
    && importers.Keys <= before.Keys + reached
    && forall id :: Importers(importers, id) == Importers(before, id) + if id in reached then {importer} else {}
  }

  /** The fragments a rule of `id` is scoped to: those that reach it. */
  method ImportedBy(fragments: Fragments) returns (importers: map<CssId, set<CssId>>)
    ensures importers.Keys == fragments.Keys
    ensures forall id, importer :: id in fragments ==>
              (importer in importers[id] <==> importer in fragments && Reaches(fragments, importer, id))
  {
    importers := map[];
    var todo := fragments.Keys;
    while todo != {}
      invariant todo <= fragments.Keys && Filed(fragments, fragments.Keys - todo, importers)
      decreases todo
    {
      var importer :| importer in todo;
      ghost var before, reached := importers, {};
      importers, reached := FileImporter(fragments, importer, importers);
      FileWalk(fragments, todo, before, importer, reached, importers);
      todo := todo - {importer};
    }
    FiledAll(fragments, importers);
  }

  lemma FiledOneMore(before: map<CssId, set<CssId>>, importer: CssId, reached: set<CssId>,
                     importers: map<CssId, set<CssId>>, id: CssId)
    requires FiledUnder(before, importer, reached, importers)
    ensures FiledUnder(before, importer, reached + {id}, importers[id := Importers(importers, id) + {importer}])
  {
  }

  /** The inner loop: one importer is filed under everything it reaches. */
  method FileImporter(fragments: Fragments, importer: CssId, before: map<CssId, set<CssId>>)
    returns (importers: map<CssId, set<CssId>>, ghost walked: set<CssId>)
    requires importer in fragments
    ensures Walking(fragments, importer, walked, []) && walked <= fragments.Keys
    ensures FiledUnder(before, importer, walked, importers)
  {
    importers := before;
    ReachesSelf(fragments, importer);
    var reached: set<CssId> := {};
    var pending := [importer];
    while pending != []
      invariant Walking(fragments, importer, reached, pending)
      invariant reached <= fragments.Keys && FiledUnder(before, importer, reached, importers)
      decreases fragments.Keys - reached, |pending|
    {
      WalkStep(fragments, importer, reached, pending);
      var id := pending[|pending| - 1];
      assert id in pending;
      pending := pending[..|pending| - 1];
      if id !in reached {
        FiledOneMore(before, importer, reached, importers, id);
        reached := reached + {id};
        importers := importers[id := Importers(importers, id) + {importer}];
        pending := pending + LiveImports(fragments, id);
      }
    }
    walked := reached;
  }

  lemma FileWalk(fragments: Fragments, todo: set<CssId>, before: map<CssId, set<CssId>>, importer: CssId,
                 reached: set<CssId>, importers: map<CssId, set<CssId>>)
    requires Filed(fragments, fragments.Keys - todo, before) && importer in todo && todo <= fragments.Keys
    requires Walking(fragments, importer, reached, []) && reached <= fragments.Keys
    requires FiledUnder(before, importer, reached, importers)
    ensures Filed(fragments, fragments.Keys - (todo - {importer}), importers)
  {
    assert forall id :: id in reached <==> Reaches(fragments, importer, id) by { WalkEnd(fragments, importer, reached); }
    FileReached(fragments, fragments.Keys - todo, before, importer, reached, importers);
    assert fragments.Keys - (todo - {importer}) == fragments.Keys - todo + {importer};
  }

  lemma FileReached(fragments: Fragments, walked: set<CssId>, before: map<CssId, set<CssId>>, importer: CssId,
                    reached: set<CssId>, importers: map<CssId, set<CssId>>)
    requires Filed(fragments, walked, before) && importer in fragments && importer !in walked
    requires reached <= fragments.Keys && forall id :: id in reached <==> Reaches(fragments, importer, id)
    requires FiledUnder(before, importer, reached, importers)
    ensures Filed(fragments, walked + {importer}, importers)
  {
    forall id, other
      ensures other in Importers(importers, id) <==>
              other in fragments && other in walked + {importer} && Reaches(fragments, other, id)
    {
      assert Importers(importers, id) == Importers(before, id) + if id in reached then {importer} else {};
      assert other in Importers(before, id) <==> other in fragments && other in walked && Reaches(fragments, other, id);
    }
  }

  lemma FiledAll(fragments: Fragments, importers: map<CssId, set<CssId>>)
    requires Filed(fragments, fragments.Keys, importers)
    ensures importers.Keys == fragments.Keys
    ensures forall id, importer :: id in fragments ==>
              (importer in importers[id] <==> importer in fragments && Reaches(fragments, importer, id))
  {
    forall id | id in fragments ensures id in importers {
      ReachesSelf(fragments, id);
      assert id in Importers(importers, id);
    }
    forall id, importer | id in fragments
      ensures importer in importers[id] <==> importer in fragments && Reaches(fragments, importer, id)
    {
      assert importer in Importers(importers, id) <==> importer in importers[id];
    }
  }

  /** A named section's fragments, in the bundle's own order. */
  method SectionOrder(fragments: Fragments, root: CssId)
    returns (section: seq<CssId>, ghost front: seq<CssId>, ghost tail: seq<CssId>)
    ensures IsFragmentOrder(fragments, front, tail)
    ensures section == KeepReached(fragments, root, front + tail)
  {
    var reachable := Reachable(fragments, root);
    var order;
    order, front, tail := FragmentOrder(fragments);
    section := [];
    for i := 0 to |order|
      invariant section == KeepReached(fragments, root, order[..i])
    {
      assert order[..i + 1][..i] == order[..i];
      if order[i] in reachable {
        section := section + [order[i]];
      }
    }
    assert order[..|order|] == order;
  }

  ghost function KeepReached(fragments: Fragments, root: CssId, ids: seq<CssId>): seq<CssId> {
    if ids == [] then []
    else
      var last := ids[|ids| - 1];
      KeepReached(fragments, root, ids[..|ids| - 1]) + if Reaches(fragments, root, last) then [last] else []
  }

  /** A section holds exactly the fragments its root reaches, once each. */
  lemma {:induction false} SectionHoldsReached(fragments: Fragments, root: CssId, ids: seq<CssId>, id: CssId)
    ensures id in KeepReached(fragments, root, ids) <==> id in ids && Reaches(fragments, root, id)
    ensures Distinct(ids) ==> Distinct(KeepReached(fragments, root, ids))
  {
    if ids != [] {
      var init, last := ids[..|ids| - 1], ids[|ids| - 1];
      assert ids == init + [last];
      SectionHoldsReached(fragments, root, init, id);
      SectionHoldsReached(fragments, root, init, last);
    }
  }

  lemma {:induction false} SectionKeepsOrder(fragments: Fragments, root: CssId, ids: seq<CssId>, a: CssId, b: CssId)
    requires Precedes(ids, a, b) && Reaches(fragments, root, a) && Reaches(fragments, root, b)
    ensures Precedes(KeepReached(fragments, root, ids), a, b)
  {
    var init, last := ids[..|ids| - 1], ids[|ids| - 1];
    var i, j :| 0 <= i < j < |ids| && ids[i] == a && ids[j] == b;
    var kept := KeepReached(fragments, root, init);
    if j < |ids| - 1 {
      assert init[i] == a && init[j] == b;
      SectionKeepsOrder(fragments, root, init, a, b);
      var k, l :| 0 <= k < l < |kept| && kept[k] == a && kept[l] == b;
      assert KeepReached(fragments, root, ids)[k] == a && KeepReached(fragments, root, ids)[l] == b;
    } else {
      assert init[i] == a;
      SectionHoldsReached(fragments, root, init, a);
      var k :| 0 <= k < |kept| && kept[k] == a;
      assert KeepReached(fragments, root, ids)[k] == a && KeepReached(fragments, root, ids)[|kept|] == b;
    }
  }

  /** In the section of a root, every fragment it reaches that reaches no cycle
      comes after all it imports. */
  lemma SectionImportsPrecede(fragments: Fragments, front: seq<CssId>, tail: seq<CssId>, root: CssId, id: CssId, imported: CssId)
    requires IsFragmentOrder(fragments, front, tail)
    requires Reaches(fragments, root, id) && Imports(fragments, id, imported) && !ReachesCycle(fragments, id)
    ensures Precedes(KeepReached(fragments, root, front + tail), imported, id)
  {
    ImportsPrecede(fragments, front, tail, id, imported);
    ReachThenImport(fragments, root, id, imported);
    SectionKeepsOrder(fragments, root, front + tail, imported, id);
  }
}
