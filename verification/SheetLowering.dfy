/**
  The whole lowering pass: one pre-parsed sheet out of a bundle's fragments,
  fragment by fragment, each rule scoped to the fragments that import its own.
 */
module SheetLowering {
  import opened Options
  import opened Selectors
  import opened FragmentGraph
  import opened StyleLowering

  /** A rule of a fragment; `D` stands for its declarations or descriptors. */
  datatype Rule<D> =
    | Style(selectors: seq<Selector>, body: D)
    | Keyframes(prelude: seq<Selector>, body: D)
    | FontFace(body: D)

  datatype PreparedRule<D> =
    | PreparedStyle(selectors: string, body: D)
    | PreparedKeyframes(name: string, body: D)
    | PreparedFontFace(body: D)

  datatype Sheet<D> = Sheet(imports: seq<CssId>, rules: seq<Rule<D>>)

  type StyleInfo<D> = map<CssId, Sheet<D>>

  function FragmentsOf<D>(info: StyleInfo<D>): (r: Fragments)
    ensures r.Keys == info.Keys
  {
    map id | id in info :: info[id].imports
  }

  /** A style rule is scoped; keyframes and font faces stay global; a rule with
      no selector text is dropped. */
  function Converted<D>(rule: Rule<D>, scopes: seq<Scope>): seq<PreparedRule<D>> {
    match rule
    case Style(selectors, body) =>
      if selectors == [] then [] else [PreparedStyle(ListText(ScopedList(selectors, scopes)), body)]
    case Keyframes(prelude, body) =>
      if prelude == [] then [] else [PreparedKeyframes(ListText(ScopedList(prelude, [None])), body)]
    case FontFace(body) => [PreparedFontFace(body)]
  }

  function ConvertedAll<D>(rules: seq<Rule<D>>, scopes: seq<Scope>): seq<PreparedRule<D>> {
    if rules == [] then []
    else ConvertedAll(rules[..|rules| - 1], scopes) + Converted(rules[|rules| - 1], scopes)
  }

  ghost function ImportersOf<D>(info: StyleInfo<D>, id: CssId): (r: set<CssId>)
    ensures forall g :: g in r <==> g in info && Reaches(FragmentsOf(info), g, id)
  {
    set g | g in info.Keys && Reaches(FragmentsOf(info), g, id)
  }

  /** The sheet: fragment by fragment in `order`, each rule scoped to the
      fragments that reach its own. */
  ghost function Prepared<D>(info: StyleInfo<D>, order: seq<CssId>): seq<PreparedRule<D>>
    requires forall id :: id in order ==> id in info
  {
    if order == [] then []
    else
      var last := order[|order| - 1];
      Prepared(info, order[..|order| - 1]) + ConvertedAll(info[last].rules, Scopes(ImportersOf(info, last)))
  }

  lemma OrderIsCarried(fragments: Fragments, front: seq<CssId>, tail: seq<CssId>)
    requires IsFragmentOrder(fragments, front, tail)
    ensures forall id :: id in front + tail ==> id in fragments
  {
    OrderIsPermutation(fragments, front, tail);
  }

  lemma ImportersAgree<D>(info: StyleInfo<D>, importers: map<CssId, set<CssId>>)
    requires importers.Keys == info.Keys
    requires forall id, g :: id in info ==> (g in importers[id] <==> g in info && Reaches(FragmentsOf(info), g, id))
    ensures forall id :: id in info ==> importers[id] == ImportersOf(info, id)
  {
  }

  method PrepareInOrder<D>(info: StyleInfo<D>, importers: map<CssId, set<CssId>>, order: seq<CssId>)
    returns (rules: seq<PreparedRule<D>>)
    requires importers.Keys == info.Keys && forall id :: id in order ==> id in info
    requires forall id :: id in info ==> importers[id] == ImportersOf(info, id)
    ensures rules == Prepared(info, order)
  {
    rules := [];
    for i := 0 to |order|
      invariant forall id :: id in order[..i] ==> id in info
      invariant rules == Prepared(info, order[..i])
    {
      assert order[..i + 1][..i] == order[..i];
      var own := ConvertRules(info[order[i]].rules, Scopes(importers[order[i]]));
      rules := rules + own;
    }
    assert order[..|order|] == order;
  }

  method ConvertRules<D>(rules: seq<Rule<D>>, scopes: seq<Scope>) returns (r: seq<PreparedRule<D>>)
    ensures r == ConvertedAll(rules, scopes)
  {
    r := [];
    for i := 0 to |rules|
      invariant r == ConvertedAll(rules[..i], scopes)
    {
      assert rules[..i + 1][..i] == rules[..i];
      match rules[i] {
        case Style(selectors, body) =>
          var text := ScopedSelectorText(selectors, scopes);
          if text.Some? {
            r := r + [PreparedStyle(text.value, body)];
          }
        case Keyframes(prelude, body) =>
          var text := ScopedSelectorText(prelude, [None]);
          if text.Some? {
            r := r + [PreparedKeyframes(text.value, body)];
          }
        case FontFace(body) =>
          r := r + [PreparedFontFace(body)];
      }
    }
    assert rules[..|rules|] == rules;
  }

  // ---------------------------------------------------------------------
  // What a sheet must be, rule by rule.

  /** Where an emitted rule comes from: rule `at` of fragment `id`. */
  datatype Origin = Origin(id: CssId, at: nat)

  /** A rule is emitted unless its selector list is empty. */
  predicate Kept<D>(rule: Rule<D>) {
    match rule
    case Style(selectors, _) => selectors != []
    case Keyframes(prelude, _) => prelude != []
    case FontFace(_) => true
  }

  /** `prepared` is `rule`, its selectors scoped if it is a style rule. */
  ghost predicate IsLowered<D>(rule: Rule<D>, scopes: seq<Scope>, prepared: PreparedRule<D>) {
    match rule
    case Style(selectors, body) => prepared == PreparedStyle(ListText(ScopedList(selectors, scopes)), body)
    case Keyframes(prelude, body) => prepared == PreparedKeyframes(ListText(prelude), body)
    case FontFace(body) => prepared == PreparedFontFace(body)
  }

  ghost predicate ComesFrom<D>(info: StyleInfo<D>, prepared: PreparedRule<D>, origin: Origin) {
    && origin.id in info && origin.at < |info[origin.id].rules|
    && Kept(info[origin.id].rules[origin.at])
    && IsLowered(info[origin.id].rules[origin.at], Scopes(ImportersOf(info, origin.id)), prepared)
  }

  /** Rules of one fragment keep their file order, and fragments theirs. */
  ghost predicate Earlier(order: seq<CssId>, a: Origin, b: Origin) {
    if a.id == b.id then a.at < b.at else Precedes(order, a.id, b.id)
  }

  /** Every kept rule is emitted once, lowered, in the order of the fragments. */
  ghost predicate IsSheet<D>(info: StyleInfo<D>, order: seq<CssId>, rules: seq<PreparedRule<D>>, from: seq<Origin>) {
    && |from| == |rules|
    && (forall i :: 0 <= i < |rules| ==> ComesFrom(info, rules[i], from[i]))
    && (forall i, j :: 0 <= i < j < |from| ==> Earlier(order, from[i], from[j]))
    && (forall id, at: nat :: id in info && at < |info[id].rules| && Kept(info[id].rules[at]) ==> Origin(id, at) in from)
  }

  ghost predicate IsSheetOf<D>(info: StyleInfo<D>, rules: seq<PreparedRule<D>>) {
    exists front, tail, from ::
      IsFragmentOrder(FragmentsOf(info), front, tail) && IsSheet(info, front + tail, rules, from)
  }

  // ---------------------------------------------------------------------
  // The pass makes such a sheet.

  method ToPreparsedStyleSheet<D>(info: StyleInfo<D>) returns (rules: seq<PreparedRule<D>>)
    ensures IsSheetOf(info, rules)
  {
    var fragments := FragmentsOf(info);
    var importers := ImportedBy(fragments);
    var order;
    ghost var front, tail;
    order, front, tail := FragmentOrder(fragments);
    OrderIsCarried(fragments, front, tail);
    ImportersAgree(info, importers);
    rules := PrepareInOrder(info, importers, order);
    PreparedIsSheet(info, front, tail);
  }

  /** The rules of one fragment, and where in it each comes from. */
  ghost predicate IsBlock<D>(id: CssId, rules: seq<Rule<D>>, scopes: seq<Scope>,
                                 prepared: seq<PreparedRule<D>>, from: seq<Origin>) {
    && |from| == |prepared|
    && (forall i :: 0 <= i < |from| ==>
          && from[i].id == id && from[i].at < |rules|
          && Kept(rules[from[i].at]) && IsLowered(rules[from[i].at], scopes, prepared[i]))
    && (forall i, j :: 0 <= i < j < |from| ==> from[i].at < from[j].at)
    && (forall at: nat :: at < |rules| && Kept(rules[at]) ==> Origin(id, at) in from)
  }

  lemma {:induction false} UnscopedList(selectors: seq<Selector>)
    ensures ScopedList(selectors, [None]) == selectors
  {
    if selectors != [] {
      var init, last := selectors[..|selectors| - 1], selectors[|selectors| - 1];
      UnscopedList(init);
      CopiesSnoc(last, [], None);
      assert selectors == init + [last];
    }
  }

  lemma ConvertedIsLowered<D>(rule: Rule<D>, scopes: seq<Scope>)
    ensures Converted(rule, scopes) == [] <==> !Kept(rule)
    ensures Kept(rule) ==> |Converted(rule, scopes)| == 1 && IsLowered(rule, scopes, Converted(rule, scopes)[0])
  {
    if rule.Keyframes? {
      UnscopedList(rule.prelude);
    }
  }

  lemma BlockGrows<D>(id: CssId, rules: seq<Rule<D>>, last: Rule<D>, scopes: seq<Scope>,
                          prepared: seq<PreparedRule<D>>, from: seq<Origin>)
    requires IsBlock(id, rules, scopes, prepared, from)
    ensures !Kept(last) ==> IsBlock(id, rules + [last], scopes, prepared, from)
    ensures forall p :: Kept(last) && IsLowered(last, scopes, p) ==>
              IsBlock(id, rules + [last], scopes, prepared + [p], from + [Origin(id, |rules|)])
  {
    var all := rules + [last];
    assert forall at :: 0 <= at < |rules| ==> all[at] == rules[at];
    forall at: nat | at < |all| && Kept(all[at]) ensures Origin(id, at) in from + [Origin(id, |rules|)] {
      if at < |rules| {
        assert Origin(id, at) in from;
      } else {
        assert (from + [Origin(id, |rules|)])[|from|] == Origin(id, at);
      }
    }
  }

  lemma {:induction false} BlockOf<D>(id: CssId, rules: seq<Rule<D>>, scopes: seq<Scope>) returns (from: seq<Origin>)
    ensures IsBlock(id, rules, scopes, ConvertedAll(rules, scopes), from)
  {
    from := [];
    if rules != [] {
      var init, last := rules[..|rules| - 1], rules[|rules| - 1];
      assert rules == init + [last];
      from := BlockOf(id, init, scopes);
      BlockGrows(id, init, last, scopes, ConvertedAll(init, scopes), from);
      ConvertedIsLowered(last, scopes);
      if Kept(last) {
        from := from + [Origin(id, |init|)];
        assert Converted(last, scopes) == [Converted(last, scopes)[0]];
      } else {
        assert ConvertedAll(rules, scopes) == ConvertedAll(init, scopes);
      }
    }
  }

  /** The sheet of the fragments in `order` alone. */
  ghost predicate IsPart<D>(info: StyleInfo<D>, order: seq<CssId>, rules: seq<PreparedRule<D>>, from: seq<Origin>) {
    && |from| == |rules|
    && (forall i :: 0 <= i < |rules| ==> ComesFrom(info, rules[i], from[i]) && from[i].id in order)
    && (forall i, j :: 0 <= i < j < |from| ==> Earlier(order, from[i], from[j]))
    && (forall id, at: nat :: id in order && id in info && at < |info[id].rules| && Kept(info[id].rules[at]) ==>
          Origin(id, at) in from)
  }

  lemma EarlierStays(order: seq<CssId>, last: CssId, a: Origin, b: Origin)
    ensures Earlier(order, a, b) ==> Earlier(order + [last], a, b)
    ensures a.id in order && b.id == last && a.id != last ==> Earlier(order + [last], a, b)
  {
    var more := order + [last];
    assert forall k :: 0 <= k < |order| ==> more[k] == order[k];
    assert more[|order|] == last;
    if a.id != b.id && Precedes(order, a.id, b.id) {
      var i, j :| 0 <= i < j < |order| && order[i] == a.id && order[j] == b.id;
      assert more[i] == a.id && more[j] == b.id;
    }
    if a.id in order && b.id == last {
      var i :| 0 <= i < |order| && order[i] == a.id;
      assert more[i] == a.id && more[|order|] == b.id;
    }
  }

  lemma PartGrows<D>(info: StyleInfo<D>, order: seq<CssId>, last: CssId, rules: seq<PreparedRule<D>>, from: seq<Origin>,
                         own: seq<PreparedRule<D>>, origins: seq<Origin>)
    requires IsPart(info, order, rules, from) && last in info && last !in order
    requires IsBlock(last, info[last].rules, Scopes(ImportersOf(info, last)), own, origins)
    ensures IsPart(info, order + [last], rules + own, from + origins)
  {
    var all := from + origins;
    forall i | 0 <= i < |all| ensures ComesFrom(info, (rules + own)[i], all[i]) && all[i].id in order + [last] {
      if i < |from| {
        assert ComesFrom(info, rules[i], from[i]);
      } else {
        assert all[i] == origins[i - |from|] && (rules + own)[i] == own[i - |from|];
      }
    }
    forall i, j | 0 <= i < j < |all| ensures Earlier(order + [last], all[i], all[j]) {
      EarlierStays(order, last, all[i], all[j]);
      if j < |from| {
        assert Earlier(order, from[i], from[j]);
      } else if i < |from| {
        assert from[i].id in order && all[j].id == last;
      }
    }
    forall id, at: nat | id in order + [last] && id in info && at < |info[id].rules| && Kept(info[id].rules[at])
      ensures Origin(id, at) in all
    {
      assert id in order ==> Origin(id, at) in from;
      assert id == last ==> Origin(id, at) in origins;
    }
  }

  lemma {:induction false} PartOf<D>(info: StyleInfo<D>, order: seq<CssId>) returns (from: seq<Origin>)
    requires Distinct(order) && forall id :: id in order ==> id in info
    ensures IsPart(info, order, Prepared(info, order), from)
  {
    from := [];
    if order != [] {
      var init, last := order[..|order| - 1], order[|order| - 1];
      assert order == init + [last];
      from := PartOf(info, init);
      var own := BlockOf(last, info[last].rules, Scopes(ImportersOf(info, last)));
      PartGrows(info, init, last, Prepared(info, init), from, ConvertedAll(info[last].rules, Scopes(ImportersOf(info, last))), own);
      from := from + own;
    }
  }

  lemma PreparedIsSheet<D>(info: StyleInfo<D>, front: seq<CssId>, tail: seq<CssId>)
    requires IsFragmentOrder(FragmentsOf(info), front, tail)
    requires forall id :: id in front + tail ==> id in info
    ensures IsSheetOf(info, Prepared(info, front + tail))
  {
    OrderIsPermutation(FragmentsOf(info), front, tail);
    var from := PartOf(info, front + tail);
    assert IsSheet(info, front + tail, Prepared(info, front + tail), from);
  }

  // ---------------------------------------------------------------------
  // What that means for the cascade.

  lemma PrecedesOnce(order: seq<CssId>, a: CssId, b: CssId)
    requires Distinct(order) && Precedes(order, a, b)
    ensures a != b && !Precedes(order, b, a)
  {
  }

  /** An import that closes no cycle: every rule that comes from the imported
      fragment stands before every rule that comes from its importer, whose
      rules therefore win. */
  lemma ImportedRulesComeFirst<D>(
    info: StyleInfo<D>, front: seq<CssId>, tail: seq<CssId>, rules: seq<PreparedRule<D>>, from: seq<Origin>, i: nat, j: nat)
    requires IsFragmentOrder(FragmentsOf(info), front, tail) && IsSheet(info, front + tail, rules, from)
    requires i < |rules| && j < |rules|
    requires Imports(FragmentsOf(info), from[j].id, from[i].id) && !ReachesCycle(FragmentsOf(info), from[j].id)
    ensures i < j
  {
    var order := front + tail;
    OrderIsPermutation(FragmentsOf(info), front, tail);
    ImportsPrecede(FragmentsOf(info), front, tail, from[j].id, from[i].id);
    PrecedesOnce(order, from[i].id, from[j].id);
    assert j < i ==> Earlier(order, from[j], from[i]);
  }

  lemma EarlierOnce(order: seq<CssId>, a: Origin, b: Origin)
    requires Distinct(order) && Earlier(order, a, b)
    ensures a != b && !Earlier(order, b, a)
  {
    if a.id != b.id {
      PrecedesOnce(order, a.id, b.id);
    }
  }

  ghost predicate InOrder(order: seq<CssId>, from: seq<Origin>) {
    forall i, j :: 0 <= i < j < |from| ==> Earlier(order, from[i], from[j])
  }

  /** Where the next origin of one list stands in the other. */
  lemma NextOrigin(order: seq<CssId>, f: seq<Origin>, g: seq<Origin>, k: nat) returns (i: nat)
    requires Distinct(order) && InOrder(order, f) && k < |f| && k <= |g| && f[..k] == g[..k] && f[k] in g
    ensures k <= i < |g| && g[i] == f[k]
  {
    i :| 0 <= i < |g| && g[i] == f[k];
    if i < k {
      assert g[i] == g[..k][i] == f[i];
      EarlierOnce(order, f[i], f[k]);
    }
  }

  lemma {:induction false} OriginsAgree(order: seq<CssId>, f: seq<Origin>, g: seq<Origin>, n: nat)
    requires Distinct(order) && InOrder(order, f) && InOrder(order, g) && n <= |f|
    requires forall o :: o in f <==> o in g
    ensures n <= |g| && f[..n] == g[..n]
  {
    if n > 0 {
      var k := n - 1;
      OriginsAgree(order, f, g, k);
      assert f[k] in f;
      var i := NextOrigin(order, f, g, k);
      assert g[k] in g;
      var j := NextOrigin(order, g, f, k);
      if f[k] != g[k] {
        assert Earlier(order, g[k], g[i]) && Earlier(order, f[k], f[j]);
        EarlierOnce(order, f[k], g[k]);
      }
      assert f[..n] == f[..k] + [f[k]] && g[..n] == g[..k] + [g[k]];
    }
  }

  lemma SheetHolds<D>(info: StyleInfo<D>, order: seq<CssId>, rules: seq<PreparedRule<D>>, from: seq<Origin>, o: Origin)
    requires IsSheet(info, order, rules, from)
    ensures o in from <==> o.id in info && o.at < |info[o.id].rules| && Kept(info[o.id].rules[o.at])
  {
    if o in from {
      var i :| 0 <= i < |from| && from[i] == o;
      assert ComesFrom(info, rules[i], from[i]);
    }
  }

  lemma SheetsAgree<D>(info: StyleInfo<D>, order: seq<CssId>, a: seq<PreparedRule<D>>, f: seq<Origin>,
                       b: seq<PreparedRule<D>>, g: seq<Origin>)
    requires Distinct(order) && IsSheet(info, order, a, f) && IsSheet(info, order, b, g)
    ensures a == b
  {
    forall o ensures o in f <==> o in g {
      SheetHolds(info, order, a, f, o);
      SheetHolds(info, order, b, g, o);
    }
    OriginsAgree(order, f, g, |f|);
    OriginsAgree(order, g, f, |g|);
    assert f == f[..|f|] && g == g[..|g|];
    forall i | 0 <= i < |a| ensures a[i] == b[i] {
      assert ComesFrom(info, a[i], f[i]) && ComesFrom(info, b[i], f[i]);
    }
  }

  /** A bundle has one such sheet: what it must be leaves nothing open. */
  lemma SheetIsDetermined<D>(info: StyleInfo<D>, a: seq<PreparedRule<D>>, b: seq<PreparedRule<D>>)
    requires IsSheetOf(info, a) && IsSheetOf(info, b)
    ensures a == b
  {
    var fragments := FragmentsOf(info);
    var front, tail, f :| IsFragmentOrder(fragments, front, tail) && IsSheet(info, front + tail, a, f);
    var front', tail', g :| IsFragmentOrder(fragments, front', tail') && IsSheet(info, front' + tail', b, g);
    OrderUnique(fragments, front, tail, front', tail');
    OrderIsPermutation(fragments, front, tail);
    SheetsAgree(info, front + tail, a, f, b, g);
  }
}
