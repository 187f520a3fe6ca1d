/** Lynx XML spelled out: the text of a document character by character, with
    nothing of the parser's own in it, and what the parser makes of it. */
module LynxXmlText {
  import opened Options
  import opened Texts
  import opened LynxXml
  import opened LynxXmlGrammar

  predicate Spaces(s: string) {
    forall i :: 0 <= i < |s| ==> s[i] in {' ', '\t', '\n', '\r', '\U{000C}'}
  }

  function Ignored(pieces: seq<Piece>): string {
    if pieces == [] then ""
    else
      (match pieces[0]
       case Blanks(text) => text
       case Comment(text) => "<!--" + text + "-->")
      + Ignored(pieces[1..])
  }

  function Attribute(name: string, q: Quoting, value: string): string {
    name + (q.before + ("=" + (q.after + ([q.quote] + (value + [q.quote])))))
  }

  function Inside(tag: SectionTag): string {
    match tag
    case StyleTag(lead, behind) => lead + "style" + behind
    case ScriptTag(lead, gap, quoting, background, behind) =>
      lead + ("script" + (gap + Attribute("thread", quoting, if background then "background" else "main"))) + behind
  }

  function Closing(tag: SectionTag): string {
    if tag.StyleTag? then "</style>" else "</script>"
  }

  function Content(body: Body): string {
    match body
    case Raw(text) => text
    case Cdata(before, text, behind) => before + ("<![CDATA[" + text + "]]>") + behind
  }

  function Sectioned(sections: seq<Placed>, end: seq<Piece>, tail: string): string {
    if sections == [] then Ignored(end) + ("</lynx>" + tail)
    else
      var p := sections[0];
      Ignored(p.before)
      + ("<" + (Inside(p.tag) + ">" + (Content(p.body) + Closing(p.tag) + Sectioned(sections[1..], end, tail))))
  }

  /** The whole document. */
  function Written(l: Layout): string {
    (if l.mark then ['\U{FEFF}'] else [])
    + (Ignored(l.start)
    + Declared(l.declaration, Typed(l.doctype,
        "<" + ("lynx" + (l.root.gap + Attribute("engine-version", l.root.quoting, l.root.version)) + l.root.behind + ">"
               + Sectioned(l.sections, l.end, Ignored(l.after))))))
  }

  function Declared(d: Option<(string, seq<Piece>)>, tail: string): string {
    match d
    case None => tail
    case Some((text, pieces)) => "<?xml" + (text + "?>" + (Ignored(pieces) + tail))
  }

  function Typed(d: Option<(DoctypeTag, seq<Piece>)>, tail: string): string {
    match d
    case None => tail
    case Some((t, pieces)) =>
      "<!" + (t.lead + (t.keyword + (t.gap + t.name)) + t.behind + ">" + (Ignored(pieces) + tail))
  }

  // ------------------------------------------------ what may stand where

  predicate Proper(pieces: seq<Piece>) {
    forall i :: 0 <= i < |pieces| ==>
      match pieces[i]
      case Blanks(text) => Spaces(text)
      case Comment(text) => Free(text, "-->")
  }

  predicate ProperBody(body: Body, closing: string) {
    match body
    case Raw(text) =>
      && Free(text, closing)
      && forall i :: 0 <= i < |text| && Spaces(text[..i]) ==> !StartsWith(text[i..], "<![CDATA[")
    case Cdata(before, text, behind) => Spaces(before) && Spaces(behind) && Free(text, "]]>")
  }

  lemma SpacesAreBlank(s: string)
    ensures Spaces(s) <==> AllBlank(s)
  {
    assert forall c: char :: c in {' ', '\t', '\n', '\r', '\U{000C}'} <==> IsBlank(c);
  }

  lemma {:induction false} IgnoredIsPieces(pieces: seq<Piece>)
    ensures Ignored(pieces) == PiecesText(pieces)
  {
    if pieces != [] {
      IgnoredIsPieces(pieces[1..]);
    }
  }

  lemma {:induction false} SectionedIsSections(sections: seq<Placed>, end: seq<Piece>, tail: string)
    ensures Sectioned(sections, end, tail) == SectionsText(sections, end, tail)
  {
    if sections == [] {
      IgnoredIsPieces(end);
    } else {
      var p := sections[0];
      IgnoredIsPieces(p.before);
      SectionedIsSections(sections[1..], end, tail);
      assert Inside(p.tag) == TagInside(p.tag) && Content(p.body) == BodyText(p.body);
      assert Closing(p.tag) == ClosingTag(SlotOf(p.tag));
    }
  }

  lemma WrittenIsLayout(l: Layout)
    ensures Written(l) == LayoutText(l)
  {
    IgnoredIsPieces(l.start);
    IgnoredIsPieces(l.after);
    SectionedIsSections(l.sections, l.end, Ignored(l.after));
    if l.declaration.Some? {
      IgnoredIsPieces(l.declaration.value.1);
    }
    if l.doctype.Some? {
      IgnoredIsPieces(l.doctype.value.1);
    }
    assert '\U{FEFF}' == BYTE_ORDER_MARK;
  }

  // ------------------------------------------------------- whole documents

  /** Two tags that open the same section. */
  predicate SameSection(a: SectionTag, b: SectionTag) {
    a.StyleTag? == b.StyleTag? && (a.ScriptTag? && b.ScriptTag? ==> a.background == b.background)
  }

  predicate IsMain(tag: SectionTag) {
    tag.ScriptTag? && !tag.background
  }

  ghost predicate ProperPlaced(p: Placed) {
    Proper(p.before) && ValidTag(p.tag) && ProperBody(p.body, Closing(p.tag))
  }

  ghost predicate ProperLayout(l: Layout) {
    && Proper(l.start) && Proper(l.end) && Proper(l.after)
    && (l.declaration.Some? ==> Free(l.declaration.value.0, "?>") && Proper(l.declaration.value.1))
    && (l.doctype.Some? ==> ValidDoctype(l.doctype.value.0) && Proper(l.doctype.value.1))
    && ValidRoot(l.root)
    && (forall i :: 0 <= i < |l.sections| ==> ProperPlaced(l.sections[i]))
    && (forall i, j :: 0 <= i < j < |l.sections| ==> !SameSection(l.sections[i].tag, l.sections[j].tag))
    && (exists i :: 0 <= i < |l.sections| && IsMain(l.sections[i].tag))
  }

  /** The body of the section the tag opens, if it was written. */
  ghost predicate Gives(sections: seq<Placed>, tag: SectionTag, content: Option<string>) {
    && (forall i :: 0 <= i < |sections| && SameSection(sections[i].tag, tag) ==> content == Some(sections[i].body.text))
    && ((forall i :: 0 <= i < |sections| ==> !SameSection(sections[i].tag, tag)) ==> content == None)
  }

  const STYLE := StyleTag("", "")
  const MAIN := ScriptTag("", " ", Quoting("", "", '"'), false, "")
  const BACKGROUND := ScriptTag("", " ", Quoting("", "", '"'), true, "")

  ghost predicate Means(l: Layout, d: Document) {
    && d.engineVersion == l.root.version
    && Gives(l.sections, STYLE, d.style)
    && Gives(l.sections, MAIN, Some(d.mainThreadScript))
    && Gives(l.sections, BACKGROUND, d.backgroundThreadScript)
  }

  lemma ProperIsValid(pieces: seq<Piece>)
    ensures Proper(pieces) <==> ValidPieces(pieces)
  {
    forall i | 0 <= i < |pieces| && pieces[i].Blanks? ensures Spaces(pieces[i].text) <==> AllBlank(pieces[i].text) {
      SpacesAreBlank(pieces[i].text);
    }
  }

  lemma {:induction false} SkippedIsSuffix(text: string)
    ensures var i := |text| - |SkipBlank(text)|;
            0 <= i <= |text| && SkipBlank(text) == text[i..] && AllBlank(text[..i]) && (i < |text| ==> !IsBlank(text[i]))
  {
    SkipBlankSplits(text);
    var i := |text| - |SkipBlank(text)|;
    assert i < |text| ==> text[i] == SkipBlank(text)[0];
  }

  /** The blanks a text begins with end in one place. */
  lemma OneFirstMark(text: string, n: nat, i: nat)
    requires n <= |text| && AllBlank(text[..n]) && (n < |text| ==> !IsBlank(text[n]))
    requires i < |text| && AllBlank(text[..i]) && !IsBlank(text[i])
    ensures i == n
  {
    forall k | 0 <= k < n ensures IsBlank(text[k]) { assert text[..n][k] == text[k]; }
    forall k | 0 <= k < i ensures IsBlank(text[k]) { assert text[..i][k] == text[k]; }
  }

  lemma StartsWithMark(text: string)
    requires StartsWith(text, "<![CDATA[")
    ensures text != "" && text[0] == '<'
  {
    assert text[0] == text[..9][0];
  }

  lemma RawIsValid(text: string)
    ensures !StartsWith(SkipBlank(text), CDATA_START) <==>
              forall i :: 0 <= i < |text| && Spaces(text[..i]) ==> !StartsWith(text[i..], "<![CDATA[")
  {
    SkippedIsSuffix(text);
    var n := |text| - |SkipBlank(text)|;
    SpacesAreBlank(text[..n]);
    forall i | 0 <= i < |text| && Spaces(text[..i]) && StartsWith(text[i..], "<![CDATA[") ensures i == n {
      SpacesAreBlank(text[..i]);
      StartsWithMark(text[i..]);
      OneFirstMark(text, n, i);
    }
    if StartsWith(SkipBlank(text), CDATA_START) {
      StartsWithMark(SkipBlank(text));
      assert Spaces(text[..n]) && StartsWith(text[n..], "<![CDATA[");
    }
  }

  lemma BodyIsValid(body: Body, closing: string)
    ensures ProperBody(body, closing) <==> ValidBody(body, closing)
  {
    match body
    case Raw(text) => RawIsValid(text);
    case Cdata(before, text, behind) =>
      SpacesAreBlank(before);
      SpacesAreBlank(behind);
  }

  lemma SectionsDiffer(a: SectionTag, b: SectionTag)
    ensures SameSection(a, b) <==> SlotOf(a) == SlotOf(b)
  {
  }

  lemma {:induction false} ValuesAt(sections: seq<Placed>, i: nat)
    requires i < |sections|
    ensures |ValuesOf(sections)| == |sections|
    ensures ValuesOf(sections)[i] == Section(SlotOf(sections[i].tag), sections[i].body.text)
  {
    if i > 0 {
      ValuesAt(sections[1..], i - 1);
    } else if |sections| > 1 {
      ValuesAt(sections[1..], 0);
    }
  }

  lemma AllValues(sections: seq<Placed>)
    ensures |ValuesOf(sections)| == |sections|
    ensures forall i :: 0 <= i < |sections| ==>
              ValuesOf(sections)[i] == Section(SlotOf(sections[i].tag), sections[i].body.text)
  {
    forall i | 0 <= i < |sections|
      ensures |ValuesOf(sections)| == |sections|
      ensures ValuesOf(sections)[i] == Section(SlotOf(sections[i].tag), sections[i].body.text)
    {
      ValuesAt(sections, i);
    }
  }

  lemma LayoutIsValid(l: Layout)
    ensures ProperLayout(l) <==> ValidLayout(l)
  {
    ProperIsValid(l.start);
    ProperIsValid(l.end);
    ProperIsValid(l.after);
    if l.declaration.Some? { ProperIsValid(l.declaration.value.1); }
    if l.doctype.Some? { ProperIsValid(l.doctype.value.1); }
    forall i | 0 <= i < |l.sections| ensures ProperPlaced(l.sections[i]) <==> ValidPlaced(l.sections[i]) {
      var p := l.sections[i];
      ProperIsValid(p.before);
      BodyIsValid(p.body, ClosingTag(SlotOf(p.tag)));
      assert Closing(p.tag) == ClosingTag(SlotOf(p.tag));
    }
    OnceIsOnce(l.sections);
    MainIsMain(l.sections);
  }

  lemma OnceIsOnce(sections: seq<Placed>)
    ensures EachOnce(ValuesOf(sections)) <==>
              forall i, j :: 0 <= i < j < |sections| ==> !SameSection(sections[i].tag, sections[j].tag)
  {
    AllValues(sections);
    forall i, j | 0 <= i < j < |sections|
      ensures SameSection(sections[i].tag, sections[j].tag) <==> ValuesOf(sections)[i].slot == ValuesOf(sections)[j].slot
    {
      SectionsDiffer(sections[i].tag, sections[j].tag);
    }
  }

  lemma MainIsMain(sections: seq<Placed>)
    ensures Has(ValuesOf(sections), MainThread) <==> exists i :: 0 <= i < |sections| && IsMain(sections[i].tag)
  {
    AllValues(sections);
    if Has(ValuesOf(sections), MainThread) {
      var i :| 0 <= i < |sections| && ValuesOf(sections)[i].slot == MainThread;
      assert IsMain(sections[i].tag);
    }
    if i :| 0 <= i < |sections| && IsMain(sections[i].tag) {
      assert ValuesOf(sections)[i].slot == MainThread;
    }
  }

  lemma {:induction false} ContentIsWritten(done: seq<Section>, slot: Slot)
    ensures ContentOf(done, slot) == None <==> forall i :: 0 <= i < |done| ==> done[i].slot != slot
    ensures ContentOf(done, slot).Some? ==>
              exists i :: 0 <= i < |done| && done[i].slot == slot && ContentOf(done, slot) == Some(done[i].content)
    decreases |done|
  {
    if done != [] && done[|done| - 1].slot != slot {
      var init := done[..|done| - 1];
      ContentIsWritten(init, slot);
      assert forall i :: 0 <= i < |init| ==> init[i] == done[i];
    }
  }

  /** What was written under a tag is what the parser reads there. */
  lemma GivesContent(sections: seq<Placed>, tag: SectionTag, content: Option<string>)
    requires EachOnce(ValuesOf(sections))
    ensures Gives(sections, tag, content) <==> content == ContentOf(ValuesOf(sections), SlotOf(tag))
  {
    var values := ValuesOf(sections);
    AllValues(sections);
    ContentIsWritten(values, SlotOf(tag));
    forall i | 0 <= i < |sections| ensures SameSection(sections[i].tag, tag) <==> values[i].slot == SlotOf(tag) {
      SectionsDiffer(sections[i].tag, tag);
    }
  }

  lemma MeansValue(l: Layout, d: Document)
    requires ValidLayout(l)
    ensures Means(l, d) <==> LayoutValue(l) == d
  {
    ContentOfWhenHas(ValuesOf(l.sections), MainThread);
    GivesContent(l.sections, STYLE, d.style);
    GivesContent(l.sections, MAIN, Some(d.mainThreadScript));
    GivesContent(l.sections, BACKGROUND, d.backgroundThreadScript);
  }

  /** The parser accepts a text, with a document, exactly when that text is a
      way to write that document. */
  lemma AcceptsExactlyWhatIsWritten(s: string, d: Document)
    ensures Parsed(s) == Ok(d) <==> exists l :: ProperLayout(l) && Written(l) == s && Means(l, d)
  {
    AcceptsExactlyTheGrammar(s, d);
    forall l
      ensures ProperLayout(l) <==> ValidLayout(l)
      ensures Written(l) == LayoutText(l)
      ensures ValidLayout(l) ==> (Means(l, d) <==> LayoutValue(l) == d)
    {
      LayoutIsValid(l);
      WrittenIsLayout(l);
      if ValidLayout(l) {
        MeansValue(l, d);
      }
    }
    if Parsed(s) == Ok(d) {
      var l :| ValidLayout(l) && LayoutText(l) == s && LayoutValue(l) == d;
      assert ProperLayout(l) && Written(l) == s && Means(l, d);
    }
    if l :| ProperLayout(l) && Written(l) == s && Means(l, d) {
      assert ValidLayout(l) && LayoutText(l) == s && LayoutValue(l) == d;
    }
  }
}
