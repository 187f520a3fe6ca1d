/**
  Lowering a bundle's style fragments into one pre-parsed sheet: each rule is
  scoped to the fragments that import its own, in the fragments' order.
 */
module StyleLowering {
  import opened Options
  import opened Selectors
  import opened FragmentGraph

  // ---------------------------------------------------------------------
  // Scopes: the guards a rule's selectors get.

  function Digits(n: nat): string {
    if n < 10 then ["0123456789"[n]] else Digits(n / 10) + ["0123456789"[n % 10]]
  }

  function Decimal(n: int): string {
    if n < 0 then "-" + Digits(-n) else Digits(n)
  }

  /** `:where([l-css-id="N"])`, which only an element marked `N` satisfies. */
  function Guard(id: CssId): Component {
    Component(PseudoClass, "where([l-css-id=\"" + Decimal(id as int) + "\"])")
  }

  type Scope = Option<Component>

  function Guards(ids: seq<CssId>): seq<Scope> {
    if ids == [] then [] else Guards(ids[..|ids| - 1]) + [Some(Guard(ids[|ids| - 1]))]
  }

  /** One guard per importer, or only the selector unchanged when fragment 0 is one. */
  function Scopes(importers: set<CssId>): seq<Scope> {
    if 0 in importers then [None] else Guards(Sorted(importers))
  }

  /** What web-core emits: the unchanged selector and every other importer's guard. */
  function WebCoreScopes(importers: set<CssId>): seq<Scope> {
    if 0 in importers then [None] + Guards(Sorted(importers - {0})) else Guards(Sorted(importers))
  }

  /** Class, id, attribute, type, universal and pseudo-class components: what
      a compound is made of besides pseudo-elements. */
  predicate IsContent(kind: Kind) {
    kind.Class? || kind.Id? || kind.Attribute? || kind.Type? || kind.Universal? || kind.PseudoClass?
  }

  /** Just after the last component that is compound content. */
  function GuardIndex(selector: Selector): (at: nat)
    ensures at <= |selector|
    ensures at > 0 ==> IsContent(selector[at - 1].kind)
    ensures forall i :: at <= i < |selector| ==> !IsContent(selector[i].kind)
  {
    if selector == [] then 0
    else if IsContent(selector[|selector| - 1].kind) then |selector|
    else GuardIndex(selector[..|selector| - 1])
  }

  function Scoped(selector: Selector, scope: Scope): Selector {
    match scope
    case None => selector
    case Some(guard) => Insert(selector, GuardIndex(selector), guard)
  }

  /** Each selector's copies together, in scope order. */
  function Copies(selector: Selector, scopes: seq<Scope>): seq<Selector> {
    if scopes == [] then []
    else Copies(selector, scopes[..|scopes| - 1]) + [Scoped(selector, scopes[|scopes| - 1])]
  }

  function ScopedList(selectors: seq<Selector>, scopes: seq<Scope>): seq<Selector> {
    if selectors == [] then []
    else ScopedList(selectors[..|selectors| - 1], scopes) + Copies(selectors[|selectors| - 1], scopes)
  }

  /** The text of a rule's scoped selector list. */
  method ScopedSelectorText(selectors: seq<Selector>, scopes: seq<Scope>) returns (r: Option<string>)
    ensures r == if selectors == [] then None else Some(ListText(ScopedList(selectors, scopes)))
  {
    if selectors == [] {
      return None;
    }
    var text := "";
    var first := true;
    for i := 0 to |selectors|
      invariant text == ListText(ScopedList(selectors[..i], scopes)) && first == (ScopedList(selectors[..i], scopes) == [])
    {
      assert selectors[..i + 1][..i] == selectors[..i];
      text, first := AppendCopies(text, first, selectors[i], scopes, ScopedList(selectors[..i], scopes));
    }
    assert selectors[..|selectors|] == selectors;
    return Some(text);
  }

  /** The inner loop: one selector's copies behind what is `written`. */
  method AppendCopies(text0: string, first0: bool, selector: Selector, scopes: seq<Scope>, ghost written: seq<Selector>)
    returns (text: string, first: bool)
    requires text0 == ListText(written) && first0 == (written == [])
    ensures text == ListText(written + Copies(selector, scopes)) && first == (written == [] && scopes == [])
  {
    text, first := text0, first0;
    NoCopies(written, selector, scopes);
    for j := 0 to |scopes|
      invariant text == TextWith(written, selector, scopes, j) && first == (written == [] && j == 0)
    {
      CopySnoc(written, selector, scopes, j);
      if !first {
        text := text + ",";
      }
      first := false;
      var copy := WriteCopy(selector, scopes[j]);
      text := text + copy;
    }
    AllCopies(written, selector, scopes);
  }

  method WriteCopy(selector: Selector, scope: Scope) returns (text: string)
    ensures text == Text(Scoped(selector, scope))
  {
    match scope {
      case None =>
        text := WriteAll(selector);
      case Some(guard) =>
        var at := GuardIndex(selector);
        var head := WriteAll(selector[..at]);
        var tail := WriteAll(selector[at..]);
        InsertText(selector, at, guard);
        text := head + ComponentText(guard) + tail;
    }
  }

  /** The text of `written` and the first `j` copies behind it. */
  ghost function TextWith(written: seq<Selector>, selector: Selector, scopes: seq<Scope>, j: nat): string
    requires j <= |scopes|
  {
    ListText(written + Copies(selector, scopes[..j]))
  }

  lemma NoCopies(written: seq<Selector>, selector: Selector, scopes: seq<Scope>)
    ensures TextWith(written, selector, scopes, 0) == ListText(written)
  {
    assert scopes[..0] == [] && written + [] == written;
  }

  lemma AllCopies(written: seq<Selector>, selector: Selector, scopes: seq<Scope>)
    ensures TextWith(written, selector, scopes, |scopes|) == ListText(written + Copies(selector, scopes))
  {
    assert scopes[..|scopes|] == scopes;
  }

  lemma CopySnoc(written: seq<Selector>, selector: Selector, scopes: seq<Scope>, j: nat)
    requires j < |scopes|
    ensures TextWith(written, selector, scopes, j + 1) ==
            (if written == [] && j == 0 then "" else TextWith(written, selector, scopes, j) + ",") +
            Text(Scoped(selector, scopes[j]))
    ensures written == [] && j == 0 ==> TextWith(written, selector, scopes, j) == ""
  {
    var copies, copy := Copies(selector, scopes[..j]), Scoped(selector, scopes[j]);
    CopiesCount(selector, scopes[..j]);
    assert scopes[..j + 1][..j] == scopes[..j];
    assert written + (copies + [copy]) == (written + copies) + [copy];
    ListTextSnoc(written + copies, copy);
  }

  lemma {:induction false} CopiesCount(selector: Selector, scopes: seq<Scope>)
    ensures |Copies(selector, scopes)| == |scopes|
  {
    if scopes != [] {
      CopiesCount(selector, scopes[..|scopes| - 1]);
    }
  }

  lemma InsertText(selector: Selector, at: nat, guard: Component)
    requires at <= |selector|
    ensures Text(Insert(selector, at, guard)) == Text(selector[..at]) + ComponentText(guard) + Text(selector[at..])
  {
    TextConcat(selector[..at] + [guard], selector[at..]);
    TextSnoc(selector[..at], guard);
  }

  method WriteAll(components: seq<Component>) returns (text: string)
    ensures text == Text(components)
  {
    text := "";
    for i := 0 to |components|
      invariant text == Text(components[..i])
    {
      assert components[..i + 1] == components[..i] + [components[i]];
      TextSnoc(components[..i], components[i]);
      text := text + ComponentText(components[i]);
    }
    assert components[..|components|] == components;
  }

  lemma {:induction false} TextConcat(a: Selector, b: Selector)
    ensures Text(a + b) == Text(a) + Text(b)
  {
    if b == [] {
      assert a + b == a;
    } else {
      var init, last := b[..|b| - 1], b[|b| - 1];
      TextConcat(a, init);
      assert (a + b)[..|a + b| - 1] == a + init;
      Associative(Text(a), Text(init), ComponentText(last));
    }
  }

  lemma Associative(a: string, b: string, c: string)
    ensures (a + b) + c == a + (b + c)
  {
  }

  // ---------------------------------------------------------------------
  // Scoping preserves meaning.

  /** `:where()` adds no specificity. */
  ghost predicate GuardsWeighNothing(weight: Component -> Specificity) {
    forall id :: weight(Guard(id)) == ZERO
  }

  /** A guard holds of the elements `__SetCSSId` marked with its id. */
  ghost predicate GuardsTestMark<E(!new)>(sat: (Component, E) -> bool, marked: E -> Option<CssId>) {
    forall id, e :: sat(Guard(id), e) <==> marked(e) == Some(id)
  }

  /** A guarded copy beside the unchanged selector says nothing new. */
  lemma GuardedCopyIsRedundant<E(!new)>(
    sat: (Component, E) -> bool, related: (Component, E, E) -> bool, weight: Component -> Specificity,
    selector: Selector, id: CssId, element: E)
    requires GuardsWeighNothing(weight)
    ensures var own := Winning(sat, related, weight, [selector], element);
            Best(own, Winning(sat, related, weight, [Scoped(selector, Some(Guard(id)))], element)) == own
  {
    var at, guard := GuardIndex(selector), Guard(id);
    WinningOne(sat, related, weight, selector, element);
    WinningOne(sat, related, weight, Insert(selector, at, guard), element);
    InsertWeighsNothing(weight, selector, at, guard);
    if Matches(sat, related, Insert(selector, at, guard), element) {
      InsertShrinks(sat, related, selector, at, guard, element);
    }
  }

  lemma {:induction false} GuardedCopiesAreRedundant<E(!new)>(
    sat: (Component, E) -> bool, related: (Component, E, E) -> bool, weight: Component -> Specificity,
    selector: Selector, ids: seq<CssId>, element: E)
    requires GuardsWeighNothing(weight)
    ensures Winning(sat, related, weight, Copies(selector, [None] + Guards(ids)), element) ==
            Winning(sat, related, weight, [selector], element)
  {
    if ids == [] {
      assert ([None] + Guards(ids))[..0] == [];
      assert Copies(selector, [None] + Guards(ids)) == [selector];
    } else {
      var init, last := ids[..|ids| - 1], ids[|ids| - 1];
      GuardedCopiesAreRedundant(sat, related, weight, selector, init, element);
      GuardedCopyIsRedundant(sat, related, weight, selector, last, element);
      CopiesSnoc(selector, [None] + Guards(init), Some(Guard(last)));
      assert [None] + Guards(ids) == ([None] + Guards(init)) + [Some(Guard(last))];
      WinningConcat(sat, related, weight, Copies(selector, [None] + Guards(init)),
                    [Scoped(selector, Some(Guard(last)))], element);
    }
  }

  lemma CopiesSnoc(selector: Selector, scopes: seq<Scope>, last: Scope)
    ensures Copies(selector, scopes + [last]) == Copies(selector, scopes) + [Scoped(selector, last)]
  {
    assert (scopes + [last])[..|scopes|] == scopes;
  }

  lemma WinningOne<E(!new)>(
    sat: (Component, E) -> bool, related: (Component, E, E) -> bool, weight: Component -> Specificity,
    selector: Selector, element: E)
    ensures Winning(sat, related, weight, [selector], element) ==
            if Matches(sat, related, selector, element) then Some(Weight(weight, selector)) else None
  {
    assert [selector][..0] == [];
  }

  /** The emitted list matches the elements web-core's list matches, each with
      the same winning specificity, whatever the selectors and the importers. */
  lemma {:induction false} ScopingPreservesMeaning<E(!new)>(
    sat: (Component, E) -> bool, related: (Component, E, E) -> bool, weight: Component -> Specificity,
    selectors: seq<Selector>, importers: set<CssId>, element: E)
    requires GuardsWeighNothing(weight)
    ensures Winning(sat, related, weight, ScopedList(selectors, Scopes(importers)), element) ==
            Winning(sat, related, weight, ScopedList(selectors, WebCoreScopes(importers)), element)
  {
    if selectors != [] && 0 in importers {
      var init, last := selectors[..|selectors| - 1], selectors[|selectors| - 1];
      ScopingPreservesMeaning(sat, related, weight, init, importers, element);
      GuardedCopiesAreRedundant(sat, related, weight, last, Sorted(importers - {0}), element);
      CopiesSnoc(last, [], None);
      WinningConcat(sat, related, weight, ScopedList(init, Scopes(importers)), [last], element);
      WinningConcat(sat, related, weight, ScopedList(init, WebCoreScopes(importers)),
                    Copies(last, WebCoreScopes(importers)), element);
    }
  }

  /** The compound a selector matches with: what follows its last combinator. */
  function Subject(selector: Selector): Selector {
    if selector == [] || selector[|selector| - 1].kind.Combinator? then []
    else Subject(selector[..|selector| - 1]) + [selector[|selector| - 1]]
  }

  /** No combinator follows the guard: it stands on the subject compound. */
  predicate GuardedAtSubject(selector: Selector) {
    NoCombinator(selector[GuardIndex(selector)..])
  }

  predicate HasContent(selector: Selector) {
    exists i :: 0 <= i < |selector| && IsContent(selector[i].kind)
  }

  /** The guard tests the matched element itself exactly when the subject
      compound has content, or is the whole selector: a subject that is only
      a pseudo-element behind a combinator leaves it on the compound before. */
  lemma {:induction false} GuardStandsOnSubject(selector: Selector)
    ensures GuardedAtSubject(selector) <==> HasContent(Subject(selector)) || NoCombinator(selector)
  {
    if selector != [] {
      var init, last := selector[..|selector| - 1], selector[|selector| - 1];
      assert selector == init + [last];
      if IsContent(last.kind) {
        assert Subject(selector)[|Subject(selector)| - 1] == last;
        assert selector[|selector|..] == [];
      } else {
        GuardStandsOnSubject(init);
        GuardBehindNoContent(init, last);
      }
    }
  }

  lemma GuardBehindNoContent(init: Selector, last: Component)
    requires !IsContent(last.kind)
    ensures GuardIndex(init + [last]) == GuardIndex(init)
    ensures GuardedAtSubject(init + [last]) <==> GuardedAtSubject(init) && !last.kind.Combinator?
    ensures NoCombinator(init + [last]) <==> NoCombinator(init) && !last.kind.Combinator?
    ensures HasContent(Subject(init + [last])) <==> !last.kind.Combinator? && HasContent(Subject(init))
  {
    assert (init + [last])[..|init|] == init;
    var at := GuardIndex(init);
    assert (init + [last])[at..] == init[at..] + [last];
    NoCombinatorSnoc(init, last);
    NoCombinatorSnoc(init[at..], last);
    if !last.kind.Combinator? {
      HasContentSnoc(Subject(init), last);
    }
  }

  /** `.a > ::placeholder`: its guard lands on `.a`, not on what it matches. */
  lemma LonePseudoElementIsNotGuarded(parent: string)
    ensures var selector := [Component(Class, parent), Component(Combinator, ">"), Component(PseudoElement, "placeholder")];
            GuardIndex(selector) == 1 && !GuardedAtSubject(selector)
  {
    var selector := [Component(Class, parent), Component(Combinator, ">"), Component(PseudoElement, "placeholder")];
    assert IsContent(selector[0].kind);
    assert selector[1..][0].kind.Combinator?;
  }

  // A guard off the subject does not test what is matched.

  lemma DigitsDiffer(a: int, b: int)
    requires 0 <= a < 10 && 0 <= b < 10 && "0123456789"[a] == "0123456789"[b]
    ensures a == b
  {
  }

  lemma {:induction false} DigitsInjective(a: nat, b: nat)
    requires Digits(a) == Digits(b)
    ensures a == b
  {
    DigitsAreDigits(a);
    DigitsAreDigits(b);
    assert Digits(a)[|Digits(a)| - 1] == Digits(b)[|Digits(b)| - 1];
    DigitsDiffer(a % 10, b % 10);
    if a >= 10 && b >= 10 {
      assert Digits(a)[..|Digits(a)| - 1] == Digits(a / 10) && Digits(b)[..|Digits(b)| - 1] == Digits(b / 10);
      DigitsInjective(a / 10, b / 10);
    }
  }

  lemma {:induction false} DigitsAreDigits(n: nat)
    ensures |Digits(n)| >= (if n < 10 then 1 else 2) && (n < 10 ==> |Digits(n)| == 1)
    ensures Digits(n)[|Digits(n)| - 1] == "0123456789"[n % 10] && Digits(n)[0] != '-'
  {
    if n >= 10 {
      DigitsAreDigits(n / 10);
    }
  }

  /** Two fragments never share a guard. */
  lemma GuardsDiffer(a: CssId, b: CssId)
    requires Guard(a) == Guard(b)
    ensures a == b
  {
    var start := "where([l-css-id=\"";
    var m, n := Decimal(a as int), Decimal(b as int);
    SameMiddle(start, m, n, "\"])");
    MinusLeads(a as int);
    MinusLeads(b as int);
    if a < 0 {
      assert m[1..] == Digits(-(a as int)) && n[1..] == Digits(-(b as int));
      DigitsInjective(-(a as int), -(b as int));
    } else {
      DigitsInjective(a as int, b as int);
    }
  }

  lemma MinusLeads(n: int)
    ensures Decimal(n) != "" && (Decimal(n)[0] == '-' <==> n < 0)
  {
    if n >= 0 {
      DigitsAreDigits(n);
    }
  }

  lemma SameMiddle(start: string, m: string, n: string, end: string)
    requires start + m + end == start + n + end
    ensures m == n
  {
    var whole := start + m + end;
    assert |m| == |n|;
    assert m == whole[|start|..|start| + |m|] && n == whole[|start|..|start| + |n|];
  }

  /** Two elements, of which `true` alone is marked, with `id`: everything but
      a guard holds of both, and each is related to the other. */
  ghost predicate OfTwo(id: CssId, c: Component, element: bool) {
    forall g :: c == Guard(g) ==> element && g == id
  }

  predicate AnyTwo(c: Component, other: bool, element: bool) {
    true
  }

  function OnlyTrue(id: CssId, element: bool): Option<CssId> {
    if element then Some(id) else None
  }

  ghost predicate NoGuardIn(selector: Selector) {
    forall i, g :: 0 <= i < |selector| ==> selector[i] != Guard(g)
  }

  lemma {:induction false} MarkedMatches(id: CssId, selector: Selector)
    requires forall i, g :: 0 <= i < |selector| && selector[i] == Guard(g) ==> g == id
    ensures Matches((c, e) => OfTwo(id, c, e), AnyTwo, selector, true)
  {
    if selector != [] {
      var init, last := selector[..|selector| - 1], selector[|selector| - 1];
      MarkedMatches(id, init);
      if last.kind.Combinator? {
        assert AnyTwo(last, true, true);
      }
    }
  }

  /** The element before the last combinator may be the marked one. */
  lemma MarkedBefore(id: CssId, init: Selector, last: Component, at: nat)
    requires at <= |init| && NoGuardIn(init) && last.kind.Combinator?
    ensures Matches((c, e) => OfTwo(id, c, e), AnyTwo, Insert(init, at, Guard(id)) + [last], false)
  {
    var before := Insert(init, at, Guard(id));
    GuardedByOne(id, init, at);
    MarkedMatches(id, before);
    assert (before + [last])[..|before|] == before;
    assert AnyTwo(last, true, false);
  }

  lemma {:induction false} UnmarkedMatches(id: CssId, selector: Selector, at: nat)
    requires at <= |selector| && NoGuardIn(selector) && !NoCombinator(selector[at..])
    ensures Matches((c, e) => OfTwo(id, c, e), AnyTwo, Insert(selector, at, Guard(id)), false)
  {
    var init, last := selector[..|selector| - 1], selector[|selector| - 1];
    InsertSnoc(selector, at, Guard(id));
    if last.kind.Combinator? {
      MarkedBefore(id, init, last, at);
    } else {
      assert selector[at..] == init[at..] + [last];
      NoCombinatorSnoc(init[at..], last);
      UnmarkedMatches(id, init, at);
      assert OfTwo(id, last, false);
      MatchesSnoc((c, e) => OfTwo(id, c, e), AnyTwo, Insert(init, at, Guard(id)), last, false);
    }
  }

  lemma GuardedByOne(id: CssId, selector: Selector, at: nat)
    requires at <= |selector| && NoGuardIn(selector)
    ensures forall i, g :: 0 <= i <= |selector| && Insert(selector, at, Guard(id))[i] == Guard(g) ==> g == id
  {
    var guarded := Insert(selector, at, Guard(id));
    forall i | 0 <= i <= |selector| && i != at ensures forall g :: guarded[i] != Guard(g) {
      assert guarded[i] == selector[if i < at then i else i - 1];
    }
    forall g | Guard(id) == Guard(g) ensures g == id {
      GuardsDiffer(g, id);
    }
  }

  /** Wherever the guard does not stand on the subject, the scoped selector can
      apply to an element that carries no mark: there are a document and a
      reading of the selector's own components in which it does. */
  lemma OffSubjectGuardLetsOthersIn(selector: Selector, id: CssId)
    returns (sat: (Component, bool) -> bool, related: (Component, bool, bool) -> bool, marked: bool -> Option<CssId>)
    requires NoGuardIn(selector) && !GuardedAtSubject(selector)
    ensures GuardsTestMark(sat, marked) && marked(false).None?
    ensures Matches(sat, related, Scoped(selector, Some(Guard(id))), false)
  {
    sat := (c, e) => OfTwo(id, c, e);
    related := AnyTwo;
    marked := e => OnlyTrue(id, e);
    forall g, e ensures OfTwo(id, Guard(g), e) <==> OnlyTrue(id, e) == Some(g) {
      forall h | Guard(g) == Guard(h) ensures g == h { GuardsDiffer(g, h); }
    }
    UnmarkedMatches(id, selector, GuardIndex(selector));
  }

  lemma NoCombinatorSnoc(init: Selector, last: Component)
    ensures NoCombinator(init + [last]) <==> NoCombinator(init) && !last.kind.Combinator?
  {
    var all := init + [last];
    assert forall i :: 0 <= i < |init| ==> all[i] == init[i];
    assert all[|init|] == last;
  }

  lemma HasContentSnoc(init: Selector, last: Component)
    ensures HasContent(init + [last]) <==> HasContent(init) || IsContent(last.kind)
  {
    var all := init + [last];
    assert forall i :: 0 <= i < |init| ==> all[i] == init[i];
    assert all[|init|] == last;
  }

  /** A scoped rule applies to exactly the elements marked with an importer's
      id, as the unscoped rule would apply to them. */
  lemma ScopedRuleMeaning<E(!new)>(
    sat: (Component, E) -> bool, related: (Component, E, E) -> bool, weight: Component -> Specificity,
    marked: E -> Option<CssId>, selectors: seq<Selector>, importers: set<CssId>, element: E)
    requires GuardsWeighNothing(weight)
    requires GuardsTestMark(sat, marked)
    requires forall i :: 0 <= i < |selectors| ==> GuardedAtSubject(selectors[i])
    requires 0 !in importers
    ensures Winning(sat, related, weight, ScopedList(selectors, Scopes(importers)), element) ==
            if marked(element).Some? && marked(element).value in importers
            then Winning(sat, related, weight, selectors, element) else None
  {
    GuardedListMeaning(sat, related, weight, marked, selectors, Sorted(importers), element);
  }

  lemma {:induction false} GuardedListMeaning<E(!new)>(
    sat: (Component, E) -> bool, related: (Component, E, E) -> bool, weight: Component -> Specificity,
    marked: E -> Option<CssId>, selectors: seq<Selector>, ids: seq<CssId>, element: E)
    requires GuardsWeighNothing(weight)
    requires GuardsTestMark(sat, marked)
    requires forall i :: 0 <= i < |selectors| ==> GuardedAtSubject(selectors[i])
    ensures Winning(sat, related, weight, ScopedList(selectors, Guards(ids)), element) ==
            if marked(element).Some? && marked(element).value in ids
            then Winning(sat, related, weight, selectors, element) else None
  {
    if selectors != [] {
      var init, last := selectors[..|selectors| - 1], selectors[|selectors| - 1];
      assert selectors == init + [last];
      GuardedListMeaning(sat, related, weight, marked, init, ids, element);
      CopiesMeaning(sat, related, weight, marked, last, ids, element);
      GuardedListSnoc(sat, related, weight, init, last, ids, element,
                      marked(element).Some? && marked(element).value in ids);
    }
  }

  lemma GuardedListSnoc<E(!new)>(
    sat: (Component, E) -> bool, related: (Component, E, E) -> bool, weight: Component -> Specificity,
    init: seq<Selector>, last: Selector, ids: seq<CssId>, element: E, applies: bool)
    requires Winning(sat, related, weight, ScopedList(init, Guards(ids)), element) ==
             if applies then Winning(sat, related, weight, init, element) else None
    requires Winning(sat, related, weight, Copies(last, Guards(ids)), element) ==
             if applies then Winning(sat, related, weight, [last], element) else None
    ensures Winning(sat, related, weight, ScopedList(init + [last], Guards(ids)), element) ==
            if applies then Winning(sat, related, weight, init + [last], element) else None
  {
    ScopedListSnoc(init, last, Guards(ids));
    WinningConcat(sat, related, weight, ScopedList(init, Guards(ids)), Copies(last, Guards(ids)), element);
    WinningConcat(sat, related, weight, init, [last], element);
  }

  lemma ScopedListSnoc(init: seq<Selector>, last: Selector, scopes: seq<Scope>)
    ensures ScopedList(init + [last], scopes) == ScopedList(init, scopes) + Copies(last, scopes)
  {
    assert (init + [last])[..|init|] == init;
  }

  lemma {:induction false} CopiesMeaning<E(!new)>(
    sat: (Component, E) -> bool, related: (Component, E, E) -> bool, weight: Component -> Specificity,
    marked: E -> Option<CssId>, selector: Selector, ids: seq<CssId>, element: E)
    requires GuardsWeighNothing(weight)
    requires GuardsTestMark(sat, marked)
    requires GuardedAtSubject(selector)
    ensures Winning(sat, related, weight, Copies(selector, Guards(ids)), element) ==
            if marked(element).Some? && marked(element).value in ids
            then Winning(sat, related, weight, [selector], element) else None
  {
    if ids == [] {
    } else {
      var init, last := ids[..|ids| - 1], ids[|ids| - 1];
      assert ids == init + [last];
      CopiesMeaning(sat, related, weight, marked, selector, init, element);
      CopyMeaning(sat, related, weight, marked, selector, last, element);
      CopiesSnoc(selector, Guards(init), Some(Guard(last)));
      WinningConcat(sat, related, weight, Copies(selector, Guards(init)), [Scoped(selector, Some(Guard(last)))], element);
    }
  }

  lemma {:induction false} CopyMeaning<E(!new)>(
    sat: (Component, E) -> bool, related: (Component, E, E) -> bool, weight: Component -> Specificity,
    marked: E -> Option<CssId>, selector: Selector, id: CssId, element: E)
    requires GuardsWeighNothing(weight)
    requires GuardsTestMark(sat, marked)
    requires GuardedAtSubject(selector)
    ensures Winning(sat, related, weight, [Scoped(selector, Some(Guard(id)))], element) ==
            if marked(element) == Some(id) then Winning(sat, related, weight, [selector], element) else None
  {
    GuardedMeaning(sat, related, weight, selector, GuardIndex(selector), Guard(id), element);
  }

  /** A guard on the subject is one more test, which weighs nothing. */
  lemma {:induction false} GuardedMeaning<E(!new)>(
    sat: (Component, E) -> bool, related: (Component, E, E) -> bool, weight: Component -> Specificity,
    selector: Selector, at: nat, guard: Component, element: E)
    requires weight(guard) == ZERO && !guard.kind.Combinator?
    requires at <= |selector| && NoCombinator(selector[at..])
    ensures Winning(sat, related, weight, [Insert(selector, at, guard)], element) ==
            if sat(guard, element) then Winning(sat, related, weight, [selector], element) else None
  {
    InsertTestsSubject(sat, related, selector, at, guard, element);
    InsertWeighsNothing(weight, selector, at, guard);
    MatchesWhere(sat, related, weight, Insert(selector, at, guard), selector, sat(guard, element), element);
  }

  lemma MatchesWhere<E(!new)>(
    sat: (Component, E) -> bool, related: (Component, E, E) -> bool, weight: Component -> Specificity,
    guarded: Selector, selector: Selector, holds: bool, element: E)
    requires Matches(sat, related, guarded, element) <==> holds && Matches(sat, related, selector, element)
    requires Weight(weight, guarded) == Weight(weight, selector)
    ensures Winning(sat, related, weight, [guarded], element) ==
            if holds then Winning(sat, related, weight, [selector], element) else None
  {
    WinningOne(sat, related, weight, selector, element);
    WinningOne(sat, related, weight, guarded, element);
  }
}
