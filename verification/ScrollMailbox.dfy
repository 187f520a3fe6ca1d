/**
  The painter's mailbox on a view: the latest state per scroll container and
  one coalesced frame post, with a marker sent for the first post since a take.
 */
module ScrollMailbox {
  import opened Options

  /** A scroll container. */
  type Node = nat

  /** Coordinates and clock readings are only ever copied here. */
  datatype Offset = Offset(x: int, y: int)

  /** What one pass says of one container; `rest` is where it came to rest, if it did. */
  datatype ScrollEntry = ScrollEntry(offset: Offset, at: int, rest: Option<Offset>, request: Option<nat>, anchorShift: Offset)

  /** A frame request: the painter's clock reading (only ever copied), its
      number, and the count of commands sent before it. */
  datatype FramePost = FramePost(now: int, seqno: nat, fence: nat) {
    /** Two posts not yet applied, as one. */
    function Merge(later: FramePost): FramePost {
      FramePost(later.now, Max(seqno, later.seqno), Max(fence, later.fence))
    }
  }

  function Max(a: nat, b: nat): nat {
    if a > b then a else b
  }

  function Or<T>(a: Option<T>, b: Option<T>): Option<T> {
    if a.Some? then a else b
  }

  type Entries = map<Node, ScrollEntry>

  /** An entry overwrites its container's, keeping an untaken `rest`. */
  function WithEntry(scrolled: Entries, node: Node, entry: ScrollEntry): Entries {
    if node in scrolled then scrolled[node := entry.(rest := Or(entry.rest, scrolled[node].rest))]
    else scrolled[node := entry]
  }

  function WithEntries(scrolled: Entries, entries: seq<(Node, ScrollEntry)>): Entries {
    if entries == [] then scrolled
    else
      var (node, entry) := entries[|entries| - 1];
      WithEntry(WithEntries(scrolled, entries[..|entries| - 1]), node, entry)
  }

  function WithFrame(held: Option<FramePost>, frame: Option<FramePost>): Option<FramePost> {
    match frame
    case None => held
    case Some(later) => Some(if held.Some? then held.value.Merge(later) else later)
  }

  /** The mailbox as a value: what is posted and whether its marker is out. */
  datatype Mail = Mail(scrolled: Entries, frame: Option<FramePost>, armed: bool)

  const NO_MAIL := Mail(map[], None, false)

  function Posted(mail: Mail, entries: seq<(Node, ScrollEntry)>, frame: Option<FramePost>): Mail {
    Mail(WithEntries(mail.scrolled, entries), WithFrame(mail.frame, frame), true)
  }

  /** What one painter pass posts. */
  datatype Pass = Pass(entries: seq<(Node, ScrollEntry)>, frame: Option<FramePost>)

  class Mailbox {
    var scrolled: Entries
    var frame: Option<FramePost>
    var armed: bool
    /** Every post since the last take, oldest first. */
    ghost var posts: seq<Pass>

    ghost function Contents(): Mail
      reads this
    {
      Mail(scrolled, frame, armed)
    }

    ghost predicate Valid()
      reads this
    {
      && scrolled == WithEntries(map[], AllEntries(posts))
      && frame == AllFrames(posts)
      && armed == (posts != [])
    }

    constructor ()
      ensures Valid() && Contents() == NO_MAIL && posts == []
    {
      scrolled, frame, armed, posts := map[], None, false, [];
    }

    /** `true` when the caller must send the marker. */
    method Post(entries: seq<(Node, ScrollEntry)>, post: Option<FramePost>) returns (mustSend: bool)
      requires Valid()
      modifies this
      ensures Valid() && posts == old(posts) + [Pass(entries, post)]
      ensures Contents() == Posted(old(Contents()), entries, post)
      ensures mustSend <==> old(posts) == []
    {
      MergeEntries(entries);
      if post.Some? {
        frame := Some(if frame.Some? then frame.value.Merge(post.value) else post.value);
      }
      mustSend := !armed;
      armed := true;
      PassSnoc(posts, Pass(entries, post));
      posts := posts + [Pass(entries, post)];
    }

    /** The merging loop of a post. */
    method MergeEntries(entries: seq<(Node, ScrollEntry)>)
      modifies this`scrolled
      ensures scrolled == WithEntries(old(scrolled), entries)
    {
      for i := 0 to |entries|
        invariant scrolled == WithEntries(old(scrolled), entries[..i])
      {
        var (node, entry) := entries[i];
        assert entries[..i + 1][..i] == entries[..i];
        if node in scrolled {
          var rest := if entry.rest.Some? then entry.rest else scrolled[node].rest;
          scrolled := scrolled[node := entry.(rest := rest)];
        } else {
          scrolled := scrolled[node := entry];
        }
      }
      assert entries[..|entries|] == entries;
    }

    /** Everything posted since the last take; the next post sends a marker again. */
    method Take() returns (taken: Entries, due: Option<FramePost>)
      requires Valid()
      modifies this
      ensures Valid() && posts == [] && Contents() == NO_MAIL
      ensures due == AllFrames(old(posts))
      ensures forall node :: node in taken <==> Names(AllEntries(old(posts)), node)
      ensures forall node :: node in taken ==> IsLatest(AllEntries(old(posts)), node, taken[node])
    {
      taken, due := scrolled, frame;
      forall node
        ensures node in taken <==> Names(AllEntries(posts), node)
        ensures node in taken ==> IsLatest(AllEntries(posts), node, taken[node])
      {
        CoalescedIsLatest(AllEntries(posts), node);
      }
      scrolled, armed, frame, posts := map[], false, None, [];
    }
  }

  function AllEntries(posts: seq<Pass>): seq<(Node, ScrollEntry)> {
    if posts == [] then [] else AllEntries(posts[..|posts| - 1]) + posts[|posts| - 1].entries
  }

  function AllFrames(posts: seq<Pass>): Option<FramePost> {
    if posts == [] then None else WithFrame(AllFrames(posts[..|posts| - 1]), posts[|posts| - 1].frame)
  }

  lemma PassSnoc(posts: seq<Pass>, last: Pass)
    ensures WithEntries(map[], AllEntries(posts + [last])) == WithEntries(WithEntries(map[], AllEntries(posts)), last.entries)
    ensures AllFrames(posts + [last]) == WithFrame(AllFrames(posts), last.frame)
  {
    assert (posts + [last])[..|posts|] == posts;
    WithEntriesConcat(map[], AllEntries(posts), last.entries);
  }

  lemma {:induction false} WithEntriesConcat(scrolled: Entries, a: seq<(Node, ScrollEntry)>, b: seq<(Node, ScrollEntry)>)
    ensures WithEntries(scrolled, a + b) == WithEntries(WithEntries(scrolled, a), b)
  {
    if b == [] {
      assert a + b == a;
    } else {
      assert (a + b)[..|a + b| - 1] == a + b[..|b| - 1];
      WithEntriesConcat(scrolled, a, b[..|b| - 1]);
    }
  }

  // ---------------------------------------------------------------------
  // What a take yields, said without the fold that computes it.

  ghost predicate Names(entries: seq<(Node, ScrollEntry)>, node: Node) {
    exists i :: 0 <= i < |entries| && entries[i].0 == node
  }

  /** The last entry posted for `node` is the `i`th. */
  ghost predicate LastAt(entries: seq<(Node, ScrollEntry)>, node: Node, i: int) {
    && 0 <= i < |entries| && entries[i].0 == node
    && forall k :: i < k < |entries| ==> entries[k].0 != node
  }

  /** `rest` is the last one posted for `node`, if any was. */
  ghost predicate IsLastRest(entries: seq<(Node, ScrollEntry)>, node: Node, rest: Option<Offset>) {
    match rest
    case None => forall k :: 0 <= k < |entries| && entries[k].0 == node ==> entries[k].1.rest.None?
    case Some(_) =>
      exists i :: 0 <= i < |entries| && entries[i].0 == node && entries[i].1.rest == rest &&
        forall k :: i < k < |entries| && entries[k].0 == node ==> entries[k].1.rest.None?
  }

  /** `entry` is the last one posted for `node`, with the last rest posted for it. */
  ghost predicate IsLatest(entries: seq<(Node, ScrollEntry)>, node: Node, entry: ScrollEntry) {
    && IsLastRest(entries, node, entry.rest)
    && exists i :: LastAt(entries, node, i) && entry == entries[i].1.(rest := entry.rest)
  }

  lemma {:induction false} CoalescedIsLatest(entries: seq<(Node, ScrollEntry)>, node: Node)
    ensures var all := WithEntries(map[], entries);
            if node in all then Names(entries, node) && IsLatest(entries, node, all[node])
            else !Names(entries, node) && IsLastRest(entries, node, None)
  {
    if entries != [] {
      var init, last := entries[..|entries| - 1], entries[|entries| - 1];
      assert entries == init + [last];
      CoalescedIsLatest(init, node);
      var before := WithEntries(map[], init);
      RestSnoc(init, last, node, if node in before then before[node].rest else None);
      NamesSnoc(init, last, node);
      if last.0 == node {
        assert LastAt(entries, node, |init|);
      } else if node in before {
        LastSnoc(init, last, node, before[node]);
      }
    }
  }

  lemma NamesSnoc(init: seq<(Node, ScrollEntry)>, last: (Node, ScrollEntry), node: Node)
    ensures Names(init + [last], node) <==> Names(init, node) || last.0 == node
  {
    var all := init + [last];
    assert forall i :: 0 <= i < |init| ==> all[i] == init[i];
    assert all[|init|] == last;
  }

  lemma LastSnoc(init: seq<(Node, ScrollEntry)>, last: (Node, ScrollEntry), node: Node, entry: ScrollEntry)
    requires last.0 != node
    requires exists i :: LastAt(init, node, i) && entry == init[i].1.(rest := entry.rest)
    ensures exists i :: LastAt(init + [last], node, i) && entry == (init + [last])[i].1.(rest := entry.rest)
  {
    var i :| LastAt(init, node, i) && entry == init[i].1.(rest := entry.rest);
    assert LastAt(init + [last], node, i);
  }

  lemma RestSnoc(init: seq<(Node, ScrollEntry)>, last: (Node, ScrollEntry), node: Node, held: Option<Offset>)
    requires IsLastRest(init, node, held)
    ensures IsLastRest(init + [last], node, if last.0 == node then Or(last.1.rest, held) else held)
  {
    var all := init + [last];
    assert forall i :: 0 <= i < |init| ==> all[i] == init[i];
    assert all[|init|] == last;
    if held.Some? && (last.0 != node || last.1.rest.None?) {
      var i :| 0 <= i < |init| && init[i].0 == node && init[i].1.rest == held &&
        forall k :: i < k < |init| && init[k].0 == node ==> init[k].1.rest.None?;
      assert all[i].0 == node && all[i].1.rest == held;
    }
  }

  /** The frame a take yields carries the newest clock and covers every post:
      no sequence and no fence is lost to the coalescing. */
  lemma {:induction false} FramesCovered(posts: seq<Pass>, i: nat)
    requires i < |posts| && posts[i].frame.Some?
    ensures var all := AllFrames(posts);
            && all.Some? && posts[i].frame.value.seqno <= all.value.seqno && posts[i].frame.value.fence <= all.value.fence
            && ((forall k :: i < k < |posts| ==> posts[k].frame.None?) ==> all.value.now == posts[i].frame.value.now)
  {
    var init := posts[..|posts| - 1];
    if i < |init| {
      assert init[i] == posts[i];
      assert forall k :: i < k < |init| ==> init[k] == posts[k];
      FramesCovered(init, i);
    }
  }

  /** And it invents none: both come from some post. */
  lemma {:induction false} FramesAttained(posts: seq<Pass>)
    requires AllFrames(posts).Some?
    ensures exists i :: 0 <= i < |posts| && posts[i].frame.Some? && posts[i].frame.value.seqno == AllFrames(posts).value.seqno
    ensures exists i :: 0 <= i < |posts| && posts[i].frame.Some? && posts[i].frame.value.fence == AllFrames(posts).value.fence
  {
    var init, last := posts[..|posts| - 1], posts[|posts| - 1];
    if AllFrames(init).Some? {
      FramesAttained(init);
      var i :| 0 <= i < |init| && init[i].frame.Some? && init[i].frame.value.seqno == AllFrames(init).value.seqno;
      var j :| 0 <= j < |init| && init[j].frame.Some? && init[j].frame.value.fence == AllFrames(init).value.fence;
      assert posts[i] == init[i] && posts[j] == init[j];
    }
  }
}
