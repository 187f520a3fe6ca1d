/** The selector text that is emitted, read again: a reader of CSS selectors of
    its own, and what it makes of the text of a scoped rule. */
module SelectorText {
  import opened Options
  import opened FragmentGraph
  import opened Selectors
  import opened StyleLowering

  // ------------------------------------------------------------ the reader

  predicate IsNameChar(c: char) {
    'a' <= c <= 'z' || 'A' <= c <= 'Z' || '0' <= c <= '9' || c == '-' || c == '_'
  }

  /** How far a name reaches. */
  function NameEnd(s: string): (n: nat)
    ensures n <= |s|
  {
    if s == "" || !IsNameChar(s[0]) then 0 else 1 + NameEnd(s[1..])
  }

  /** Just past the first `c`, or the length of `s`. */
  function Past(s: string, c: char): (n: nat)
    ensures n <= |s| && (s != "" ==> n > 0)
  {
    if s == "" then 0 else if s[0] == c then 1 else 1 + Past(s[1..], c)
  }

  /** A pseudo-class's name, with its arguments if it has any. */
  function PseudoEnd(s: string): (n: nat)
    ensures n <= |s|
  {
    var n := NameEnd(s);
    if n < |s| && s[n] == '(' then n + Past(s[n..], ')') else n
  }

  function Cut(kind: Kind, s: string, n: nat): (Component, string)
    requires n <= |s|
  {
    (Component(kind, s[..n]), s[n..])
  }

  /** The first component of a selector's text, and what is left of it. */
  function ReadOne(s: string): (r: (Component, string))
    requires s != ""
    ensures |r.1| < |s|
  {
    if s[0] == '.' then Cut(Class, s[1..], NameEnd(s[1..]))
    else if s[0] == '#' then Cut(Id, s[1..], NameEnd(s[1..]))
    else if s[0] == ':' && |s| > 1 && s[1] == ':' then Cut(PseudoElement, s[2..], NameEnd(s[2..]))
    else if s[0] == ':' then Cut(PseudoClass, s[1..], PseudoEnd(s[1..]))
    else if s[0] == '[' then Cut(Attribute, s, Past(s, ']'))
    else if s[0] == '*' then Cut(Universal, s, 1)
    else if s[0] == ' ' then
      if |s| > 2 && s[1] in {'>', '+', '~'} && s[2] == ' ' then (Component(Combinator, [s[1]]), s[3..])
      else Cut(Combinator, s, 1)
    else if NameEnd(s) > 0 then Cut(Type, s, NameEnd(s))
    else Cut(UnknownText, s, |s|)
  }

  /** A selector's components up to a comma, and what is left. */
  function ReadSelector(s: string): (r: (Selector, string))
    ensures |r.1| <= |s|
    decreases |s|
  {
    if s == "" || s[0] == ',' then ([], s)
    else
      var (c, left) := ReadOne(s);
      var (more, rest) := ReadSelector(left);
      ([c] + more, rest)
  }

  function ReadList(s: string): seq<Selector>
    decreases |s|
  {
    var (selector, rest) := ReadSelector(s);
    if rest == "" then [selector] else [selector] + ReadList(rest[1..])
  }

  // --------------------------------------------------- what can be read back

  predicate IsName(v: string) {
    v != "" && forall i :: 0 <= i < |v| ==> IsNameChar(v[i])
  }

  ghost predicate IsFunctional(v: string) {
    exists name, args :: IsName(name) && ')' !in args && v == name + ("(" + args + ")")
  }

  /** The components an encoder writes, with plain names. */
  ghost predicate Readable(c: Component) {
    match c.kind
    case Class => IsName(c.value)
    case Id => IsName(c.value)
    case Type => IsName(c.value)
    case PseudoElement => IsName(c.value)
    case PseudoClass => IsName(c.value) || IsFunctional(c.value)
    case Attribute => c.value != "" && c.value[0] == '[' && Past(c.value, ']') == |c.value| && c.value[|c.value| - 1] == ']'
    case Universal => c.value == "*"
    case Combinator => c.value == " " || c.value == ">" || c.value == "+" || c.value == "~"
    case UnknownText => false
  }

  /** A type selector begins its compound. */
  ghost predicate Fluent(selector: Selector) {
    && (forall i :: 0 <= i < |selector| ==> Readable(selector[i]))
    && (forall i :: 0 < i < |selector| && selector[i].kind.Type? ==> selector[i - 1].kind.Combinator?)
  }

  // ------------------------------------------------------------ reading back

  lemma {:induction false} NameEndsThere(v: string, tail: string)
    requires (forall i :: 0 <= i < |v| ==> IsNameChar(v[i])) && (tail != "" ==> !IsNameChar(tail[0]))
    ensures NameEnd(v + tail) == |v| && (v + tail)[..|v|] == v && (v + tail)[|v|..] == tail
    decreases |v|
  {
    if v == "" {
      assert v + tail == tail;
    } else {
      assert (v + tail)[0] == v[0] && (v + tail)[1..] == v[1..] + tail;
      NameEndsThere(v[1..], tail);
    }
  }

  lemma {:induction false} PastIsThere(v: string, c: char, tail: string)
    requires c !in v
    ensures Past(v + ([c] + tail), c) == |v| + 1
    decreases |v|
  {
    var s := v + ([c] + tail);
    if v == "" {
      assert s == [c] + tail;
    } else {
      assert s[0] == v[0] && s[1..] == v[1..] + ([c] + tail);
      PastIsThere(v[1..], c, tail);
    }
  }

  lemma {:induction false} PastWhole(v: string, c: char, tail: string)
    requires v != "" && Past(v, c) == |v| && v[|v| - 1] == c
    ensures Past(v + tail, c) == |v|
    decreases |v|
  {
    assert (v + tail)[0] == v[0] && (v + tail)[1..] == v[1..] + tail;
    if v[0] != c {
      assert v[1..][|v| - 2] == v[|v| - 1];
      PastWhole(v[1..], c, tail);
    }
  }

  /** What may follow a name, or a component. */
  predicate Stops(tail: string) {
    tail != "" ==> !IsNameChar(tail[0]) && tail[0] != '('
  }

  predicate NoSign(tail: string) {
    tail != "" ==> tail[0] !in {'>', '+', '~'}
  }

  lemma PseudoNameReads(v: string, tail: string)
    requires IsName(v) && Stops(tail)
    ensures PseudoEnd(v + tail) == |v|
  {
    NameEndsThere(v, tail);
    assert tail != "" ==> (v + tail)[|v|] == tail[0];
  }

  lemma PseudoFunctionReads(name: string, args: string, tail: string)
    requires IsName(name) && ')' !in args
    ensures PseudoEnd(name + ("(" + args + ")") + tail) == |name| + |args| + 2
  {
    var s := name + ("(" + args + ")") + tail;
    assert s == name + ("(" + args + ")" + tail);
    NameEndsThere(name, "(" + args + ")" + tail);
    assert s[|name|..] == ("(" + args) + ([')'] + tail);
    PastIsThere("(" + args, ')', tail);
  }

  lemma PseudoReads(v: string, tail: string)
    requires (IsName(v) || IsFunctional(v)) && Stops(tail)
    ensures PseudoEnd(v + tail) == |v| && v != "" && v[0] != ':'
  {
    if IsName(v) {
      PseudoNameReads(v, tail);
    } else {
      var name, args :| IsName(name) && ')' !in args && v == name + ("(" + args + ")");
      PseudoFunctionReads(name, args, tail);
      assert v[0] == name[0];
    }
  }

  lemma CutBack(kind: Kind, v: string, tail: string)
    ensures Cut(kind, v + tail, |v|) == (Component(kind, v), tail)
  {
  }

  lemma BehindOne(p: char, v: string, tail: string)
    ensures var t := [p] + v + tail; t[0] == p && t[1..] == v + tail && (v != "" ==> t[1] == v[0])
  {
  }

  lemma ClassReads(v: string, tail: string)
    requires IsName(v) && Stops(tail)
    ensures ReadOne("." + v + tail) == (Component(Class, v), tail)
  {
    BehindOne('.', v, tail);
    NameEndsThere(v, tail);
    CutBack(Class, v, tail);
  }

  lemma IdReads(v: string, tail: string)
    requires IsName(v) && Stops(tail)
    ensures ReadOne("#" + v + tail) == (Component(Id, v), tail)
  {
    BehindOne('#', v, tail);
    NameEndsThere(v, tail);
    CutBack(Id, v, tail);
  }

  lemma PseudoElementReads(v: string, tail: string)
    requires IsName(v) && Stops(tail)
    ensures ReadOne("::" + v + tail) == (Component(PseudoElement, v), tail)
  {
    var text := "::" + v + tail;
    assert text[0] == ':' && text[1] == ':' && text[2..] == v + tail;
    NameEndsThere(v, tail);
    CutBack(PseudoElement, v, tail);
  }

  lemma PseudoClassReads(v: string, tail: string)
    requires (IsName(v) || IsFunctional(v)) && Stops(tail)
    ensures ReadOne(":" + v + tail) == (Component(PseudoClass, v), tail)
  {
    BehindOne(':', v, tail);
    PseudoReads(v, tail);
    CutBack(PseudoClass, v, tail);
  }

  lemma PlainReads(c: Component, tail: string)
    requires (c.kind.Type? || c.kind.Attribute? || c.kind.Universal?) && Readable(c) && Stops(tail)
    ensures ReadOne(ComponentText(c) + tail) == (c, tail)
  {
    var text := c.value + tail;
    assert text[0] == c.value[0];
    CutBack(c.kind, c.value, tail);
    if c.kind.Type? {
      assert IsNameChar(text[0]);
      NameEndsThere(c.value, tail);
    } else if c.kind.Attribute? {
      PastWhole(c.value, ']', tail);
    }
  }

  lemma CombinatorReads(c: Component, tail: string)
    requires c.kind.Combinator? && Readable(c) && NoSign(tail)
    ensures ReadOne(ComponentText(c) + tail) == (c, tail)
  {
    var text := ComponentText(c) + tail;
    if c.value == " " {
      assert IsBlank(c.value);
      assert text == " " + tail && (tail != "" ==> text[1] == tail[0]);
      CutBack(Combinator, " ", tail);
    } else {
      assert !IsWhiteSpace(c.value[0]) && !IsBlank(c.value);
      assert text[0] == ' ' && text[1] == c.value[0] && text[2] == ' ' && text[3..] == tail;
      assert [c.value[0]] == c.value;
    }
  }

  lemma ComponentReads(c: Component, tail: string)
    requires Readable(c) && NoSign(tail) && (!c.kind.Combinator? ==> Stops(tail))
    ensures ReadOne(ComponentText(c) + tail) == (c, tail)
  {
    match c.kind
    case Class => ClassReads(c.value, tail);
    case Id => IdReads(c.value, tail);
    case PseudoElement => PseudoElementReads(c.value, tail);
    case PseudoClass => PseudoClassReads(c.value, tail);
    case Combinator => CombinatorReads(c, tail);
    case _ => PlainReads(c, tail);
  }

  /** How a component's text begins. */
  lemma TextBegins(c: Component, tail: string)
    requires Readable(c)
    ensures var text := ComponentText(c) + tail;
            text != "" && text[0] != ',' && NoSign(text) && (!c.kind.Type? ==> Stops(text))
  {
    var text := ComponentText(c) + tail;
    assert ComponentText(c) != "" && text[0] == ComponentText(c)[0];
    if c.kind.Combinator? {
      assert text[0] == ' ';
    }
  }

  predicate EndsSelector(tail: string) {
    tail != "" ==> tail[0] == ','
  }

  lemma TextCons(selector: Selector)
    requires selector != []
    ensures Text(selector) == ComponentText(selector[0]) + Text(selector[1..])
  {
    assert selector == [selector[0]] + selector[1..];
    TextConcat([selector[0]], selector[1..]);
    TextOne(selector[0]);
  }

  lemma TextOne(c: Component)
    ensures Text([c]) == ComponentText(c)
  {
    assert [c][..0] == [];
  }

  lemma TextBehind(selector: Selector, tail: string)
    requires selector != []
    ensures Text(selector) + tail == ComponentText(selector[0]) + (Text(selector[1..]) + tail)
  {
    TextCons(selector);
    Associative(ComponentText(selector[0]), Text(selector[1..]), tail);
  }

  lemma RestIsFluent(selector: Selector)
    requires Fluent(selector) && selector != []
    ensures Readable(selector[0]) && Fluent(selector[1..])
    ensures |selector| > 1 && !selector[0].kind.Combinator? ==> !selector[1].kind.Type?
  {
    var rest := selector[1..];
    assert forall i :: 0 <= i < |rest| ==> rest[i] == selector[i + 1];
  }

  /** How a selector's text begins. */
  lemma SelectorBegins(selector: Selector, tail: string)
    requires Fluent(selector) && EndsSelector(tail)
    ensures var text := Text(selector) + tail;
            NoSign(text) && ((selector != [] && selector[0].kind.Type?) || Stops(text))
  {
    if selector == [] {
      assert Text(selector) + tail == tail;
    } else {
      TextBehind(selector, tail);
      RestIsFluent(selector);
      TextBegins(selector[0], Text(selector[1..]) + tail);
    }
  }

  lemma ReadSelectorCons(text: string, c: Component, left: string)
    requires text != "" && text[0] != ',' && ReadOne(text) == (c, left)
    ensures ReadSelector(text) == ([c] + ReadSelector(left).0, ReadSelector(left).1)
  {
  }

  lemma {:induction false} SelectorReads(selector: Selector, tail: string)
    requires Fluent(selector) && EndsSelector(tail)
    ensures ReadSelector(Text(selector) + tail) == (selector, tail)
    decreases |selector|
  {
    if selector == [] {
      assert Text(selector) + tail == tail;
    } else {
      var c, rest := selector[0], selector[1..];
      RestIsFluent(selector);
      SelectorBegins(rest, tail);
      ComponentReads(c, Text(rest) + tail);
      TextBegins(c, Text(rest) + tail);
      ReadSelectorCons(ComponentText(c) + (Text(rest) + tail), c, Text(rest) + tail);
      SelectorReads(rest, tail);
      TextBehind(selector, tail);
      assert selector == [c] + rest;
    }
  }

  lemma ListTwo(first: Selector, last: Selector)
    ensures ListText([first] + [last]) == Text(first) + ("," + ListText([last]))
  {
    ListTextSnoc([first], last);
    ListOne(first);
    ListOne(last);
    Associative(Text(first), ",", Text(last));
  }

  lemma ListConsStep(first: Selector, init: seq<Selector>, last: Selector)
    requires init != [] && ListText([first] + init) == Text(first) + ("," + ListText(init))
    ensures ListText(([first] + init) + [last]) == Text(first) + ("," + ListText(init + [last]))
  {
    ListTextSnoc([first] + init, last);
    ListTextSnoc(init, last);
    ListJoin(Text(first), ListText(init), Text(last));
  }

  lemma {:induction false} ListCons(first: Selector, rest: seq<Selector>)
    requires rest != []
    ensures ListText([first] + rest) == Text(first) + ("," + ListText(rest))
    decreases |rest|
  {
    var init, last := rest[..|rest| - 1], rest[|rest| - 1];
    assert rest == init + [last];
    if init == [] {
      assert rest == [last];
      ListTwo(first, last);
    } else {
      ListCons(first, init);
      ListConsStep(first, init, last);
      assert [first] + rest == ([first] + init) + [last];
    }
  }

  lemma ListJoin(first: string, middle: string, last: string)
    ensures first + ("," + middle) + "," + last == first + ("," + (middle + "," + last))
  {
  }

  lemma ListOne(selector: Selector)
    ensures ListText([selector]) == Text(selector)
  {
    assert [selector][..0] == [];
  }

  lemma ReadListCons(text: string, selector: Selector, more: string)
    requires ReadSelector(text) == (selector, "," + more)
    ensures ReadList(text) == [selector] + ReadList(more)
  {
    assert ("," + more)[1..] == more;
  }

  lemma ReadListOne(text: string, selector: Selector)
    requires ReadSelector(text) == (selector, "")
    ensures ReadList(text) == [selector]
  {
  }

  /** A selector list's text reads back as exactly the list. */
  lemma {:induction false} ListReads(selectors: seq<Selector>)
    requires selectors != [] && forall i :: 0 <= i < |selectors| ==> Fluent(selectors[i])
    ensures ReadList(ListText(selectors)) == selectors
    decreases |selectors|
  {
    var first, rest := selectors[0], selectors[1..];
    assert selectors == [first] + rest;
    if rest == [] {
      SelectorReads(first, "");
      assert Text(first) + "" == Text(first);
      ListOne(first);
      ReadListOne(Text(first), first);
    } else {
      SelectorReads(first, "," + ListText(rest));
      ListCons(first, rest);
      ReadListCons(ListText(selectors), first, ListText(rest));
      ListReads(rest);
    }
  }

  // ------------------------------------------------------- scoped rules

  lemma {:induction false} DigitsArePlain(n: nat)
    ensures ')' !in Digits(n)
  {
    if n >= 10 {
      DigitsArePlain(n / 10);
    }
  }

  lemma WhereIsFunctional(args: string)
    requires ')' !in args
    ensures IsFunctional("where" + ("(" + args + ")"))
  {
    assert IsName("where");
  }

  lemma GuardText(n: string)
    ensures "where([l-css-id=\"" + n + "\"])" == "where" + ("(" + ("[l-css-id=\"" + n + "\"]") + ")")
    ensures ')' !in n ==> ')' !in "[l-css-id=\"" + n + "\"]"
  {
  }

  lemma GuardIsReadable(id: CssId)
    ensures Readable(Guard(id))
  {
    var n := id as int;
    DigitsArePlain(if n < 0 then -n else n);
    GuardText(Decimal(n));
    WhereIsFunctional("[l-css-id=\"" + Decimal(n) + "\"]");
  }

  lemma ScopedIsFluent(selector: Selector, id: CssId)
    requires Fluent(selector)
    ensures Fluent(Scoped(selector, Some(Guard(id))))
  {
    var at := GuardIndex(selector);
    var guarded := Insert(selector, at, Guard(id));
    GuardIsReadable(id);
    forall i | 0 <= i < |guarded| ensures Readable(guarded[i]) {
      assert guarded[i] == if i < at then selector[i] else if i == at then Guard(id) else selector[i - 1];
    }
    forall i | at <= i < |guarded| ensures !guarded[i].kind.Type? {
      assert i > at ==> guarded[i] == selector[i - 1];
    }
    forall i | 0 < i < |guarded| && guarded[i].kind.Type? ensures guarded[i - 1].kind.Combinator? {
      assert guarded[i] == selector[i] && guarded[i - 1] == selector[i - 1];
    }
  }

  lemma {:induction false} CopiesAreFluent(selector: Selector, ids: seq<CssId>)
    requires Fluent(selector)
    ensures forall i :: 0 <= i < |Copies(selector, Guards(ids))| ==> Fluent(Copies(selector, Guards(ids))[i])
    ensures |Copies(selector, Guards(ids))| == |ids|
  {
    if ids != [] {
      CopiesAreFluent(selector, ids[..|ids| - 1]);
      ScopedIsFluent(selector, ids[|ids| - 1]);
      CopiesSnoc(selector, Guards(ids[..|ids| - 1]), Some(Guard(ids[|ids| - 1])));
    }
  }

  lemma {:induction false} ScopedListIsFluent(selectors: seq<Selector>, importers: set<CssId>)
    requires forall i :: 0 <= i < |selectors| ==> Fluent(selectors[i])
    requires importers != {}
    ensures forall i :: 0 <= i < |ScopedList(selectors, Scopes(importers))| ==>
              Fluent(ScopedList(selectors, Scopes(importers))[i])
    ensures selectors != [] ==> ScopedList(selectors, Scopes(importers)) != []
  {
    if selectors != [] {
      var init, last := selectors[..|selectors| - 1], selectors[|selectors| - 1];
      ScopedListIsFluent(init, importers);
      if 0 in importers {
        CopiesSnoc(last, [], None);
      } else {
        CopiesAreFluent(last, Sorted(importers));
      }
    }
  }

  /** The text of a scoped rule, read as CSS, is the scoped selector list. */
  lemma ScopedTextReadsBack(selectors: seq<Selector>, importers: set<CssId>)
    requires selectors != [] && importers != {}
    requires forall i :: 0 <= i < |selectors| ==> Fluent(selectors[i])
    ensures ReadList(ListText(ScopedList(selectors, Scopes(importers)))) == ScopedList(selectors, Scopes(importers))
  {
    ScopedListIsFluent(selectors, importers);
    ListReads(ScopedList(selectors, Scopes(importers)));
  }
}
