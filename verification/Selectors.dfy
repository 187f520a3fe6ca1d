/**
  Selectors as a bundle stores them, flat lists of simple selectors and
  combinators, with their CSS text and what they match.
 */
module Selectors {
  import opened Options

  datatype Kind =
    | Class | Id | Attribute | Type | Combinator | PseudoClass | PseudoElement | Universal | UnknownText

  datatype Component = Component(kind: Kind, value: string)

  type Selector = seq<Component>

  // ---------------------------------------------------------------------
  // CSS text.

  /** The code points `str::trim` takes off: Unicode's `White_Space`. */
  predicate IsWhiteSpace(c: char) {
    || '\U{0009}' <= c <= '\U{000D}' || c == ' ' || c == '\U{0085}' || c == '\U{00A0}' || c == '\U{1680}'
    || '\U{2000}' <= c <= '\U{200A}' || c == '\U{2028}' || c == '\U{2029}' || c == '\U{202F}'
    || c == '\U{205F}' || c == '\U{3000}'
  }

  predicate IsBlank(value: string) {
    forall i :: 0 <= i < |value| ==> IsWhiteSpace(value[i])
  }

  function ComponentText(c: Component): string {
    match c.kind
    case Type | UnknownText | Attribute => c.value
    case Class => "." + c.value
    case Id => "#" + c.value
    case PseudoClass => ":" + c.value
    case PseudoElement => "::" + c.value
    case Universal => "*"
    case Combinator => if IsBlank(c.value) then " " else " " + c.value + " "
  }

  function Text(selector: Selector): string {
    if selector == [] then ""
    else Text(selector[..|selector| - 1]) + ComponentText(selector[|selector| - 1])
  }

  lemma TextSnoc(selector: Selector, c: Component)
    ensures Text(selector + [c]) == Text(selector) + ComponentText(c)
  {
    assert (selector + [c])[..|selector|] == selector;
  }

  /** A selector list: its selectors' texts, a comma between two. */
  function ListText(selectors: seq<Selector>): string {
    if selectors == [] then ""
    else
      var init, last := selectors[..|selectors| - 1], Text(selectors[|selectors| - 1]);
      if init == [] then last else ListText(init) + "," + last
  }

  lemma ListTextSnoc(selectors: seq<Selector>, last: Selector)
    ensures ListText(selectors + [last]) == if selectors == [] then Text(last) else ListText(selectors) + "," + Text(last)
  {
    assert (selectors + [last])[..|selectors|] == selectors;
  }

  // ---------------------------------------------------------------------
  // Matching, for any reading of the simple selectors and the combinators:
  // a simple selector tests the element it stands at, a combinator moves to
  // a related one.

  ghost predicate Matches<E(!new)>(
    sat: (Component, E) -> bool, related: (Component, E, E) -> bool, selector: Selector, element: E)
  {
    if selector == [] then true
    else
      var init, last := selector[..|selector| - 1], selector[|selector| - 1];
      if last.kind.Combinator? then exists other :: related(last, other, element) && Matches(sat, related, init, other)
      else sat(last, element) && Matches(sat, related, init, element)
  }

  lemma MatchesSnoc<E(!new)>(
    sat: (Component, E) -> bool, related: (Component, E, E) -> bool, init: Selector, last: Component, element: E)
    requires !last.kind.Combinator?
    ensures Matches(sat, related, init + [last], element) <==> sat(last, element) && Matches(sat, related, init, element)
  {
    assert (init + [last])[..|init|] == init;
  }

  /** `selector` with `guard` spliced in before its component `at`. */
  function Insert(selector: Selector, at: nat, guard: Component): (r: Selector)
    requires at <= |selector|
    ensures |r| == |selector| + 1
  {
    selector[..at] + [guard] + selector[at..]
  }

  lemma InsertSnoc(selector: Selector, at: nat, guard: Component)
    requires at < |selector|
    ensures var init, last := selector[..|selector| - 1], selector[|selector| - 1];
            Insert(selector, at, guard) == Insert(init, at, guard) + [last]
  {
    var init, last := selector[..|selector| - 1], selector[|selector| - 1];
    assert init[..at] == selector[..at] && init[at..] + [last] == selector[at..];
  }

  /** One more simple selector, wherever it lands, only shrinks what matches. */
  lemma {:induction false} InsertShrinks<E(!new)>(
    sat: (Component, E) -> bool, related: (Component, E, E) -> bool,
    selector: Selector, at: nat, guard: Component, element: E)
    requires at <= |selector| && !guard.kind.Combinator?
    requires Matches(sat, related, Insert(selector, at, guard), element)
    ensures Matches(sat, related, selector, element)
  {
    var guarded := Insert(selector, at, guard);
    if at == |selector| {
      assert guarded == selector + [guard];
      MatchesSnoc(sat, related, selector, guard, element);
    } else {
      var init, last := selector[..|selector| - 1], selector[|selector| - 1];
      InsertSnoc(selector, at, guard);
      assert guarded[..|guarded| - 1] == Insert(init, at, guard) && guarded[|guarded| - 1] == last;
      if last.kind.Combinator? {
        var other :| related(last, other, element) && Matches(sat, related, Insert(init, at, guard), other);
        InsertShrinks(sat, related, init, at, guard, other);
      } else {
        InsertShrinks(sat, related, init, at, guard, element);
      }
    }
  }

  predicate NoCombinator(selector: Selector) {
    forall i :: 0 <= i < |selector| ==> !selector[i].kind.Combinator?
  }

  /** With no combinator after it, it is a test of the element matched. */
  lemma {:induction false} InsertTestsSubject<E(!new)>(
    sat: (Component, E) -> bool, related: (Component, E, E) -> bool,
    selector: Selector, at: nat, guard: Component, element: E)
    requires at <= |selector| && !guard.kind.Combinator? && NoCombinator(selector[at..])
    ensures Matches(sat, related, Insert(selector, at, guard), element) <==>
            sat(guard, element) && Matches(sat, related, selector, element)
  {
    var guarded := Insert(selector, at, guard);
    if at == |selector| {
      assert guarded == selector + [guard];
      MatchesSnoc(sat, related, selector, guard, element);
    } else {
      var init, last := selector[..|selector| - 1], selector[|selector| - 1];
      InsertSnoc(selector, at, guard);
      assert selector[at..][|selector| - 1 - at] == last;
      forall i | 0 <= i < |init[at..]| ensures !init[at..][i].kind.Combinator? { assert init[at..][i] == selector[at..][i]; }
      InsertTestsSubject(sat, related, init, at, guard, element);
      MatchesSnoc(sat, related, Insert(init, at, guard), last, element);
      MatchesSnoc(sat, related, init, last, element);
      assert selector == init + [last];
    }
  }

  // ---------------------------------------------------------------------
  // Specificity: a sum of weights, compared column by column.

  datatype Specificity = Specificity(ids: nat, classes: nat, types: nat)

  const ZERO := Specificity(0, 0, 0)

  function Plus(a: Specificity, b: Specificity): Specificity {
    Specificity(a.ids + b.ids, a.classes + b.classes, a.types + b.types)
  }

  function Greater(a: Specificity, b: Specificity): Specificity {
    if a.ids != b.ids then (if a.ids > b.ids then a else b)
    else if a.classes != b.classes then (if a.classes > b.classes then a else b)
    else if a.types > b.types then a else b
  }

  ghost function Weight(weight: Component -> Specificity, selector: Selector): Specificity {
    if selector == [] then ZERO
    else Plus(Weight(weight, selector[..|selector| - 1]), weight(selector[|selector| - 1]))
  }

  lemma WeightSnoc(weight: Component -> Specificity, init: Selector, last: Component)
    ensures Weight(weight, init + [last]) == Plus(Weight(weight, init), weight(last))
  {
    assert (init + [last])[..|init|] == init;
  }

  lemma {:induction false} InsertWeighsNothing(weight: Component -> Specificity, selector: Selector, at: nat, guard: Component)
    requires at <= |selector| && weight(guard) == ZERO
    ensures Weight(weight, Insert(selector, at, guard)) == Weight(weight, selector)
  {
    if at == |selector| {
      assert Insert(selector, at, guard) == selector + [guard];
      WeightSnoc(weight, selector, guard);
    } else {
      var init, last := selector[..|selector| - 1], selector[|selector| - 1];
      assert selector == init + [last];
      InsertSnoc(selector, at, guard);
      InsertWeighsNothing(weight, init, at, guard);
      WeightSnoc(weight, init, last);
      WeightSnoc(weight, Insert(init, at, guard), last);
    }
  }

  /** What a rule's selector list says of an element: nothing, or the greatest
      specificity among its selectors that match. */
  ghost function Winning<E(!new)>(
    sat: (Component, E) -> bool, related: (Component, E, E) -> bool, weight: Component -> Specificity,
    selectors: seq<Selector>, element: E): Option<Specificity>
  {
    if selectors == [] then None
    else
      var init, last := selectors[..|selectors| - 1], selectors[|selectors| - 1];
      var before := Winning(sat, related, weight, init, element);
      if !Matches(sat, related, last, element) then before
      else if before.None? then Some(Weight(weight, last))
      else Some(Greater(before.value, Weight(weight, last)))
  }

  /** `Greater` of two outcomes, where no match is below every match. */
  ghost function Best(a: Option<Specificity>, b: Option<Specificity>): Option<Specificity> {
    if a.None? then b else if b.None? then a else Some(Greater(a.value, b.value))
  }

  lemma {:induction false} WinningConcat<E(!new)>(
    sat: (Component, E) -> bool, related: (Component, E, E) -> bool, weight: Component -> Specificity,
    a: seq<Selector>, b: seq<Selector>, element: E)
    ensures Winning(sat, related, weight, a + b, element) ==
            Best(Winning(sat, related, weight, a, element), Winning(sat, related, weight, b, element))
  {
    if b == [] {
      assert a + b == a;
    } else {
      var init, last := b[..|b| - 1], b[|b| - 1];
      assert (a + b)[..|a + b| - 1] == a + init;
      WinningConcat(sat, related, weight, a, init, element);
    }
  }
}
