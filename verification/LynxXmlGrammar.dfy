/** The grammar of Lynx XML: every way to write a document, and the proof
    that the parser accepts exactly the documents written that way, with
    exactly the values that were written. */
module LynxXmlGrammar {
  import opened Options
  import opened Texts
  import opened LynxXml

  // ------------------------------------------------------------ the grammar

  /** What may stand between the parts of a document. */
  datatype Piece = Blanks(text: string) | Comment(text: string)

  /** How a quoted attribute is written around its name and value. */
  datatype Quoting = Quoting(before: string, after: string, quote: char)

  datatype DoctypeTag = DoctypeTag(lead: string, keyword: string, gap: string, name: string, behind: string)

  datatype RootTag = RootTag(gap: string, quoting: Quoting, version: string, behind: string)

  datatype Body = Raw(text: string) | Cdata(before: string, text: string, behind: string)

  datatype SectionTag =
    | StyleTag(lead: string, behind: string)
    | ScriptTag(lead: string, gap: string, quoting: Quoting, background: bool, behind: string)

  datatype Placed = Placed(before: seq<Piece>, tag: SectionTag, body: Body)

  datatype Layout = Layout(
    mark: bool,
    start: seq<Piece>,
    declaration: Option<(string, seq<Piece>)>,
    doctype: Option<(DoctypeTag, seq<Piece>)>,
    root: RootTag,
    sections: seq<Placed>,
    end: seq<Piece>,
    after: seq<Piece>)

  function PieceText(p: Piece): string {
    match p
    case Blanks(text) => text
    case Comment(text) => COMMENT_START + text + COMMENT_END
  }

  function PiecesText(pieces: seq<Piece>): string {
    if pieces == [] then "" else PieceText(pieces[0]) + PiecesText(pieces[1..])
  }

  predicate ValidPiece(p: Piece) {
    match p
    case Blanks(text) => AllBlank(text)
    case Comment(text) => Free(text, COMMENT_END)
  }

  predicate ValidPieces(pieces: seq<Piece>) {
    forall i :: 0 <= i < |pieces| ==> ValidPiece(pieces[i])
  }

  function AttributeText(name: string, q: Quoting, value: string): string {
    name + (q.before + ("=" + (q.after + ([q.quote] + (value + [q.quote])))))
  }

  /** The quote character does not occur in the value it encloses. */
  predicate ValidQuoting(q: Quoting, value: string) {
    && AllBlank(q.before) && AllBlank(q.after)
    && (q.quote == '"' || q.quote == '\'')
    && q.quote !in value
  }

  function DoctypeInside(d: DoctypeTag): string {
    d.lead + (d.keyword + (d.gap + d.name)) + d.behind
  }

  predicate ValidDoctype(d: DoctypeTag) {
    && AllBlank(d.lead) && AllBlank(d.behind) && AllBlank(d.gap) && d.gap != ""
    && EqualIgnoringCase(d.keyword, "doctype") && EqualIgnoringCase(d.name, "lynx")
  }

  function RootInside(r: RootTag): string {
    "lynx" + (r.gap + AttributeText("engine-version", r.quoting, r.version)) + r.behind
  }

  predicate ValidRoot(r: RootTag) {
    && AllBlank(r.gap) && r.gap != "" && AllBlank(r.behind)
    && ValidQuoting(r.quoting, r.version) && r.version != "" && '>' !in r.version
  }

  function SlotOf(tag: SectionTag): Slot {
    if tag.StyleTag? then Style else if tag.background then BackgroundThread else MainThread
  }

  function ThreadName(background: bool): string {
    if background then "background" else "main"
  }

  function TagInside(tag: SectionTag): string {
    match tag
    case StyleTag(lead, behind) => lead + "style" + behind
    case ScriptTag(lead, gap, quoting, background, behind) =>
      lead + ("script" + (gap + AttributeText("thread", quoting, ThreadName(background)))) + behind
  }

  predicate ValidTag(tag: SectionTag) {
    && AllBlank(tag.lead) && AllBlank(tag.behind)
    && (tag.ScriptTag? ==> AllBlank(tag.gap) && tag.gap != "" && ValidQuoting(tag.quoting, ThreadName(tag.background)))
  }

  function BodyText(body: Body): string {
    match body
    case Raw(text) => text
    case Cdata(before, text, behind) => before + (CDATA_START + text + CDATA_END) + behind
  }

  /** A raw body is its own value; a CDATA section's value is its inside. */
  function BodyValue(body: Body): string {
    body.text
  }

  /** A raw body does not hold the closing tag and does not begin as a CDATA
      section; a CDATA section does not hold its own end. */
  predicate ValidBody(body: Body, closing: string) {
    match body
    case Raw(text) => Free(text, closing) && !StartsWith(SkipBlank(text), CDATA_START)
    case Cdata(before, text, behind) => AllBlank(before) && AllBlank(behind) && Free(text, CDATA_END)
  }

  function Tagged(inside: string, tail: string): string {
    "<" + (inside + TAG_END + tail)
  }

  function SectionText(tag: SectionTag, body: Body, tail: string): string {
    Tagged(TagInside(tag), BodyText(body) + ClosingTag(SlotOf(tag)) + tail)
  }

  function SectionsText(sections: seq<Placed>, end: seq<Piece>, tail: string): string {
    if sections == [] then PiecesText(end) + (ROOT_END + tail)
    else
      var p := sections[0];
      PiecesText(p.before) + SectionText(p.tag, p.body, SectionsText(sections[1..], end, tail))
  }

  predicate ValidPlaced(p: Placed) {
    ValidPieces(p.before) && ValidTag(p.tag) && ValidBody(p.body, ClosingTag(SlotOf(p.tag)))
  }

  function ValuesOf(sections: seq<Placed>): seq<Section> {
    if sections == [] then []
    else [Section(SlotOf(sections[0].tag), BodyValue(sections[0].body))] + ValuesOf(sections[1..])
  }

  ghost predicate EachOnce(sections: seq<Section>) {
    forall i, j :: 0 <= i < j < |sections| ==> sections[i].slot != sections[j].slot
  }

  // ---------------------------------------------------------------- blanks

  lemma {:induction false} SkipBlankThrough(blank: string, t: string)
    requires AllBlank(blank)
    ensures SkipBlank(blank + t) == SkipBlank(t)
    decreases |blank|
  {
    if blank == "" {
      assert blank + t == t;
    } else {
      assert (blank + t)[1..] == blank[1..] + t;
      SkipBlankThrough(blank[1..], t);
    }
  }

  lemma {:induction false} SkipBlankSplits(s: string)
    ensures var r := SkipBlank(s);
            && AllBlank(s[..|s| - |r|]) && s[|s| - |r|..] == r
            && (r != "" ==> !IsBlank(r[0]))
    decreases |s|
  {
    if s != "" && IsBlank(s[0]) {
      SkipBlankSplits(s[1..]);
      assert s[..|s| - |SkipBlank(s)|] == [s[0]] + s[1..][..|s| - 1 - |SkipBlank(s)|];
    }
  }

  lemma {:induction false} DropBlankEndThrough(t: string, blank: string)
    requires AllBlank(blank)
    ensures DropBlankEnd(t + blank) == DropBlankEnd(t)
    decreases |blank|
  {
    if blank == "" {
      assert t + blank == t;
    } else {
      assert (t + blank)[..|t + blank| - 1] == t + blank[..|blank| - 1];
      DropBlankEndThrough(t, blank[..|blank| - 1]);
    }
  }

  lemma {:induction false} DropBlankEndSplits(s: string)
    ensures var r := DropBlankEnd(s);
            && r == s[..|r|] && AllBlank(s[|r|..])
            && (r != "" ==> !IsBlank(r[|r| - 1]))
    decreases |s|
  {
    if s != "" && IsBlank(s[|s| - 1]) {
      DropBlankEndSplits(s[..|s| - 1]);
      assert s[|DropBlankEnd(s)|..] == s[..|s| - 1][|DropBlankEnd(s)|..] + [s[|s| - 1]];
    }
  }

  /** Text that neither begins nor ends with a blank. */
  predicate Core(s: string) {
    s == "" || (!IsBlank(s[0]) && !IsBlank(s[|s| - 1]))
  }

  lemma CoreStays(s: string)
    requires Core(s)
    ensures Trim(s) == s && SkipBlank(s) == s
  {
  }

  lemma TrimOf(before: string, s: string, behind: string)
    requires AllBlank(before) && AllBlank(behind) && Core(s)
    ensures Trim(before + s + behind) == s
  {
    CoreStays(s);
    assert before + s + behind == before + (s + behind);
    SkipBlankThrough(before, s + behind);
    if s == "" {
      assert s + behind == behind + "" && s == "";
      SkipBlankThrough(behind, "");
    } else {
      DropBlankEndThrough(s, behind);
    }
  }

  lemma TrimSplits(s: string) returns (before: string, behind: string)
    ensures s == before + Trim(s) + behind && AllBlank(before) && AllBlank(behind) && Core(Trim(s))
  {
    var r := SkipBlank(s);
    SkipBlankSplits(s);
    DropBlankEndSplits(r);
    before, behind := s[..|s| - |r|], r[|Trim(s)|..];
    assert r == Trim(s) + behind;
    assert s == before + r;
    assert Trim(s) != "" ==> Trim(s)[0] == r[0];
  }

  lemma {:induction false} FirstBlankOf(name: string, after: string)
    requires (forall i :: 0 <= i < |name| ==> !IsBlank(name[i])) && (after != "" ==> IsBlank(after[0]))
    ensures FirstBlank(name + after) == |name|
    decreases |name|
  {
    if name == "" {
      assert name + after == after;
    } else {
      assert (name + after)[1..] == name[1..] + after;
      FirstBlankOf(name[1..], after);
    }
  }

  lemma {:induction false} FirstOfAt(t: string, c: char, tail: string)
    requires c !in t
    ensures FirstOf(t + ([c] + tail), c) == |t|
    decreases |t|
  {
    var text := t + ([c] + tail);
    if t == "" {
      assert text[0] == c;
    } else {
      assert text[1..] == t[1..] + ([c] + tail);
      FirstOfAt(t[1..], c, tail);
    }
  }

  /** A tag's inside holds no `>`. */
  lemma {:induction false} FreeOfTagEnd(s: string)
    ensures Free(s, TAG_END) <==> '>' !in s
    decreases |s|
  {
    if s == "" {
    } else {
      FreeOfTagEnd(s[1..]);
      assert s == [s[0]] + s[1..];
      assert StartsWith(s, TAG_END) <==> s[0] == '>';
    }
  }

  lemma BlankHasNo(s: string, c: char)
    requires AllBlank(s) && !IsBlank(c)
    ensures c !in s
  {
  }

  // ---------------------------------------------------- blanks and comments

  /** Text that ignorable pieces stop in front of. */
  predicate Settled(tail: string) {
    (tail != "" ==> !IsBlank(tail[0])) && !StartsWith(tail, COMMENT_START)
  }

  lemma CommentReads(text: string, rest: string)
    requires Free(text, COMMENT_END)
    ensures Ignorable(COMMENT_START + text + COMMENT_END + rest) == Ignorable(rest)
  {
    var s := COMMENT_START + text + COMMENT_END + rest;
    assert s[0] == '<' && s[..4] == COMMENT_START;
    assert s[4..] == text + COMMENT_END + rest;
    SearchFindsEnd(text, COMMENT_END, rest);
    assert s[4..][|text| + 3..] == rest;
  }

  lemma BlanksRead(text: string, rest: string)
    requires AllBlank(text)
    ensures Ignorable(text + rest) == Ignorable(rest)
  {
    SkipBlankThrough(text, rest);
  }

  lemma {:induction false} PiecesRead(pieces: seq<Piece>, tail: string)
    requires ValidPieces(pieces) && Settled(tail)
    ensures Ignorable(PiecesText(pieces) + tail) == Ok(tail)
    decreases |pieces|
  {
    if pieces == [] {
      assert PiecesText(pieces) + tail == tail;
    } else {
      var rest := PiecesText(pieces[1..]) + tail;
      PiecesRead(pieces[1..], tail);
      assert PiecesText(pieces) + tail == PieceText(pieces[0]) + rest;
      match pieces[0]
      case Blanks(text) => BlanksRead(text, rest);
      case Comment(text) => CommentReads(text, rest);
    }
  }

  lemma CommentFound(t: string)
    requires StartsWith(t, COMMENT_START) && Search(t[4..], COMMENT_END).Some?
    ensures var i := Search(t[4..], COMMENT_END).value;
            t == COMMENT_START + t[4..][..i] + COMMENT_END + t[4..][i + 3..] && Free(t[4..][..i], COMMENT_END)
  {
    SearchSplits(t[4..], COMMENT_END);
    assert t == COMMENT_START + t[4..];
  }

  lemma PiecesTextCons(a: Piece, more: seq<Piece>, rest: string)
    ensures PiecesText([a] + more) + rest == PieceText(a) + (PiecesText(more) + rest)
  {
    assert ([a] + more)[1..] == more;
  }

  lemma PiecesTextOfTwo(a: Piece, b: Piece, more: seq<Piece>, rest: string)
    ensures PiecesText([a, b] + more) + rest == PieceText(a) + (PieceText(b) + (PiecesText(more) + rest))
  {
    assert [a, b] + more == [a] + ([b] + more);
    PiecesTextCons(a, [b] + more, rest);
    PiecesTextCons(b, more, rest);
  }

  lemma {:induction false} PiecesFound(s: string) returns (pieces: seq<Piece>)
    requires Ignorable(s).Ok?
    ensures ValidPieces(pieces) && Settled(Ignorable(s).value)
    ensures s == PiecesText(pieces) + Ignorable(s).value
    decreases |s|
  {
    var t := SkipBlank(s);
    SkipBlankSplits(s);
    var blank := Blanks(s[..|s| - |t|]);
    assert s == PieceText(blank) + t;
    if !StartsWith(t, COMMENT_START) {
      pieces := [blank];
      assert PiecesText(pieces) == PieceText(blank) + PiecesText([]);
    } else {
      var i := Search(t[4..], COMMENT_END).value;
      var comment, rest := Comment(t[4..][..i]), t[4..][i + 3..];
      CommentFound(t);
      var more := PiecesFound(rest);
      pieces := [blank, comment] + more;
      PiecesTextOfTwo(blank, comment, more, Ignorable(rest).value);
    }
  }

  // ------------------------------------------------------------ attributes

  lemma QuotedReads(q: Quoting, value: string)
    requires ValidQuoting(q, value)
    ensures var quoted := [q.quote] + (value + [q.quote]);
            Core(quoted) && FirstOf(quoted[1..], quoted[0]) == |value| && quoted[1..|value| + 1] == value
  {
    var quoted := [q.quote] + (value + [q.quote]);
    assert quoted[1..] == value + ([q.quote] + "");
    FirstOfAt(value, q.quote, "");
  }

  lemma AttributeLayout(name: string, q: Quoting, value: string)
    ensures var quoted := [q.quote] + (value + [q.quote]);
            var equals := "=" + (q.after + quoted);
            && AttributeText(name, q, value) == name + (q.before + equals)
            && AttributeText(name, q, value)[|name|..] == q.before + equals
            && AttributeText(name, q, value)[..|name|] == name
            && equals[1..] == q.after + quoted
            && equals[|equals| - 1] == q.quote
            && AttributeText(name, q, value)[|AttributeText(name, q, value)| - 1] == q.quote
  {
  }

  lemma TrimLeadOf(before: string, s: string)
    requires AllBlank(before) && Core(s)
    ensures Trim(before + s) == s
  {
    assert before + s + "" == before + s;
    TrimOf(before, s, "");
  }

  lemma AttributeReads(name: string, q: Quoting, value: string)
    requires ValidQuoting(q, value) && Core(name) && name != ""
    ensures QuotedAttribute(AttributeText(name, q, value), name) == Some(value)
    ensures Core(AttributeText(name, q, value)) && AttributeText(name, q, value) != ""
  {
    var quoted := [q.quote] + (value + [q.quote]);
    var equals := "=" + (q.after + quoted);
    QuotedReads(q, value);
    AttributeLayout(name, q, value);
    TrimLeadOf(q.before, equals);
    TrimLeadOf(q.after, quoted);
    assert AttributeText(name, q, value)[0] == name[0];
  }

  lemma QuotedFound(quoted: string)
    requires |quoted| >= 2 && FirstOf(quoted[1..], quoted[0]) + 1 == |quoted| - 1
    ensures quoted == [quoted[0]] + (quoted[1..|quoted| - 1] + [quoted[0]])
    ensures quoted[0] !in quoted[1..|quoted| - 1]
  {
    var end := FirstOf(quoted[1..], quoted[0]);
    assert quoted[1..][end] == quoted[0];
    assert forall j :: 0 <= j < end ==> quoted[1..|quoted| - 1][j] == quoted[1..][j];
  }

  lemma TrimLeadSplits(s: string) returns (before: string)
    requires s != "" ==> !IsBlank(s[|s| - 1])
    ensures s == before + Trim(s) && AllBlank(before) && Core(Trim(s))
    ensures s != "" && IsBlank(s[0]) ==> before != ""
    ensures Trim(s) == "" ==> s == ""
  {
    var r := SkipBlank(s);
    SkipBlankSplits(s);
    before := s[..|s| - |r|];
    forall i | 0 <= i < |s| - |r| ensures IsBlank(s[i]) {
      assert before[i] == s[i];
    }
    assert r != "" ==> r[|r| - 1] == s[|s| - 1];
    assert Trim(s) == r;
  }

  lemma AttributeFound(attributes: string, name: string) returns (q: Quoting)
    requires Core(attributes) && QuotedAttribute(attributes, name).Some?
    ensures var value := QuotedAttribute(attributes, name).value;
            ValidQuoting(q, value) && attributes == AttributeText(name, q, value)
  {
    var value := QuotedAttribute(attributes, name).value;
    var behindName := attributes[|name|..];
    var equals := Trim(behindName);
    var quoted := Trim(equals[1..]);
    var before := TrimLeadSplits(behindName);
    var after := TrimLeadSplits(equals[1..]);
    QuotedFound(quoted);
    q := Quoting(before, after, quoted[0]);
    assert equals == "=" + equals[1..];
    assert attributes == name + behindName;
  }

  // ------------------------------------------------------------ the prologue

  lemma TaggedReads(inside: string, tail: string)
    requires '>' !in inside
    ensures var s := Tagged(inside, tail);
            && s[0] == '<' && Search(s[1..], TAG_END) == Some(|inside|)
            && s[1..][..|inside|] == inside && s[1..][|inside| + 1..] == tail
  {
    var s := Tagged(inside, tail);
    assert s[1..] == inside + TAG_END + tail;
    FreeOfTagEnd(inside);
    SearchFindsEnd(inside, TAG_END, tail);
  }

  lemma TaggedFound(s: string)
    requires s != "" && s[0] == '<' && Search(s[1..], TAG_END).Some?
    ensures var i := Search(s[1..], TAG_END).value;
            s == Tagged(s[1..][..i], s[1..][i + 1..]) && '>' !in s[1..][..i]
  {
    var i := Search(s[1..], TAG_END).value;
    SearchSplits(s[1..], TAG_END);
    FreeOfTagEnd(s[1..][..i]);
    assert s == "<" + s[1..];
  }

  lemma NameAndRest(name: string, gap: string, rest: string)
    requires AllBlank(gap) && gap != "" && Core(rest) && forall i :: 0 <= i < |name| ==> !IsBlank(name[i])
    ensures TagParts(name + (gap + rest)) == (name, rest)
  {
    FirstBlankOf(name, gap + rest);
    assert (name + (gap + rest))[..|name|] == name;
    assert (name + (gap + rest))[|name|..] == gap + rest + "";
    TrimOf(gap, rest, "");
  }

  /** A trimmed tag that has blanks in it splits at the first of them. */
  lemma PartsFound(text: string) returns (gap: string)
    requires Core(text)
    ensures text == TagParts(text).0 + (gap + TagParts(text).1)
    ensures AllBlank(gap) && Core(TagParts(text).1)
    ensures forall i :: 0 <= i < |TagParts(text).0| ==> !IsBlank(TagParts(text).0[i])
    ensures gap != "" <==> FirstBlank(text) < |text|
    ensures gap != "" ==> TagParts(text).1 != ""
  {
    var end := FirstBlank(text);
    gap := TrimLeadSplits(text[end..]);
    assert text == text[..end] + text[end..];
    assert end < |text| ==> text[end..][0] == text[end];
  }

  lemma LetterIsNotBlank(s: string, t: string)
    requires EqualIgnoringCase(s, t) && forall i :: 0 <= i < |t| ==> 'a' <= t[i] <= 'z'
    ensures forall i :: 0 <= i < |s| ==> !IsBlank(s[i]) && s[i] != '>' && s[i] != '-'
  {
    assert forall i :: 0 <= i < |s| ==> LowerChar(s[i]) == t[i];
  }

  lemma DoctypeInsideReads(d: DoctypeTag)
    requires ValidDoctype(d)
    ensures IsDoctype(DoctypeInside(d)) && '>' !in DoctypeInside(d)
    ensures DoctypeInside(d)[0] != '-'
  {
    LetterIsNotBlank(d.keyword, "doctype");
    LetterIsNotBlank(d.name, "lynx");
    TrimOf(d.lead, d.keyword + (d.gap + d.name), d.behind);
    NameAndRest(d.keyword, d.gap, d.name);
    FirstBlankOf(d.keyword, d.gap + d.name);
  }

  lemma DoctypeInsideFound(inside: string) returns (d: DoctypeTag)
    requires IsDoctype(inside)
    ensures ValidDoctype(d) && inside == DoctypeInside(d)
  {
    var text := Trim(inside);
    var lead, behind := TrimSplits(inside);
    var gap := PartsFound(text);
    d := DoctypeTag(lead, TagParts(text).0, gap, TagParts(text).1, behind);
  }

  // -------------------------------------------------------------- the tags

  lemma NoTagEndInAttribute(name: string, q: Quoting, value: string)
    requires ValidQuoting(q, value) && '>' !in name && '>' !in value
    ensures '>' !in AttributeText(name, q, value)
  {
  }

  /** A tag's name: no blank and no `>`. */
  predicate PlainName(name: string) {
    name != "" && forall i :: 0 <= i < |name| ==> !IsBlank(name[i]) && name[i] != '>'
  }

  lemma TagEnds(name: string, gap: string, attribute: string)
    requires PlainName(name) && AllBlank(gap) && Core(attribute) && attribute != "" && '>' !in attribute
    ensures var text := name + (gap + attribute);
            Core(text) && text != "" && text[0] == name[0] && '>' !in text
  {
    var text := name + (gap + attribute);
    assert text[|text| - 1] == attribute[|attribute| - 1];
  }

  lemma TagReads(lead: string, name: string, gap: string, attribute: string, behind: string)
    requires PlainName(name) && AllBlank(lead) && AllBlank(gap) && gap != "" && AllBlank(behind)
    requires Core(attribute) && attribute != "" && '>' !in attribute
    ensures var inside := lead + (name + (gap + attribute)) + behind;
            && '>' !in inside && Trim(inside) != "" && Trim(inside)[0] == name[0]
            && TagParts(Trim(inside)) == (name, attribute)
  {
    var text := name + (gap + attribute);
    TagEnds(name, gap, attribute);
    BlankHasNo(lead, '>');
    BlankHasNo(behind, '>');
    TrimOf(lead, text, behind);
    NameAndRest(name, gap, attribute);
  }

  lemma RootInsideReads(r: RootTag)
    requires ValidRoot(r)
    ensures '>' !in RootInside(r)
    ensures QuotedAttribute(TagParts(Trim(RootInside(r))).1, "engine-version") == Some(r.version)
  {
    var attribute := AttributeText("engine-version", r.quoting, r.version);
    AttributeReads("engine-version", r.quoting, r.version);
    NoTagEndInAttribute("engine-version", r.quoting, r.version);
    TagReads("", "lynx", r.gap, attribute, r.behind);
    assert "" + ("lynx" + (r.gap + attribute)) == "lynx" + (r.gap + attribute);
  }

  lemma RootReads(r: RootTag, tail: string)
    requires ValidRoot(r)
    ensures RootStart(Tagged(RootInside(r), tail)) == Ok((r.version, tail))
  {
    var s := Tagged(RootInside(r), tail);
    RootInsideReads(r);
    TaggedReads(RootInside(r), tail);
    assert s[..5] == "<lynx" && s[5] == r.gap[0];
  }

  lemma RootInsideStarts(s: string, n: nat)
    requires OpensRoot(s) && n + 1 < |s| && s[n + 1] == '>' && '>' !in s[1..][..n]
    ensures n >= 4 && s[1..][..n][..4] == "lynx" && (n > 4 ==> IsBlank(s[1..][..n][4]))
  {
    assert s[..5][1] == s[1] && s[..5][2] == s[2] && s[..5][3] == s[3] && s[..5][4] == s[4];
    assert n >= 4;
    assert n > 4 ==> s[1..][..n][4] == s[5];
  }

  lemma StartsUnblanked(inside: string)
    requires |inside| >= 4 && inside[..4] == "lynx"
    ensures SkipBlank(inside) == inside && !IsBlank(inside[0]) && !IsBlank(inside[3])
  {
    assert inside[0] == inside[..4][0] && inside[3] == inside[..4][3];
  }

  lemma NameOfRoot(tag: string)
    requires |tag| >= 4 && tag[..4] == "lynx" && (|tag| > 4 ==> IsBlank(tag[4]))
    ensures TagParts(tag).0 == "lynx"
  {
    assert tag == "lynx" + tag[4..];
    FirstBlankOf("lynx", tag[4..]);
  }

  /** The root's tag begins with its name, without a blank before it. */
  lemma RootTagParts(inside: string) returns (behind: string)
    requires |inside| >= 4 && inside[..4] == "lynx" && (|inside| > 4 ==> IsBlank(inside[4]))
    ensures inside == Trim(inside) + behind && AllBlank(behind) && Core(Trim(inside))
    ensures TagParts(Trim(inside)).0 == "lynx"
  {
    var tag := Trim(inside);
    StartsUnblanked(inside);
    DropBlankEndSplits(inside);
    behind := inside[|tag|..];
    forall i | |tag| <= i < |inside| ensures IsBlank(inside[i]) {
      assert inside[i] == behind[i - |tag|];
    }
    assert tag[..4] == inside[..4];
    NameOfRoot(tag);
  }

  lemma AttributeIsSomething(name: string)
    requires name != ""
    ensures QuotedAttribute("", name).None?
  {
  }

  lemma RootFound(s: string) returns (r: RootTag)
    requires RootStart(s).Ok?
    ensures ValidRoot(r) && s == Tagged(RootInside(r), RootStart(s).value.1) && r.version == RootStart(s).value.0
  {
    var n := Search(s[1..], TAG_END).value;
    var inside := s[1..][..n];
    assert s[0] == s[..5][0];
    TaggedFound(s);
    RootInsideStarts(s, n);
    var behind := RootTagParts(inside);
    var tag := Trim(inside);
    AttributeIsSomething("engine-version");
    assert FirstBlank(tag) < |tag|;
    var gap := PartsFound(tag);
    var quoting := AttributeFound(TagParts(tag).1, "engine-version");
    r := RootTag(gap, quoting, RootStart(s).value.0, behind);
    assert RootInside(r) == inside;
    VersionInside(r);
  }

  lemma VersionInside(r: RootTag)
    requires '>' !in RootInside(r)
    ensures '>' !in r.version
  {
    var before := "lynx" + r.gap + ("engine-version" + r.quoting.before + "=" + r.quoting.after + [r.quoting.quote]);
    assert RootInside(r) == before + r.version + ([r.quoting.quote] + r.behind);
    assert forall i :: 0 <= i < |r.version| ==> r.version[i] == RootInside(r)[|before| + i];
  }

  /** Trimmed, a section tag's inside names the section it opens. */
  predicate Opens(inside: string, slot: Slot, left: nat) {
    var text := Trim(inside);
    '>' !in inside && text != "" && text[0] != '/' && Classified(TagParts(text).0, TagParts(text).1, left) == Ok(slot)
  }

  lemma StyleReads(lead: string, behind: string, left: nat)
    requires AllBlank(lead) && AllBlank(behind)
    ensures Opens(lead + "style" + behind, Style, left)
  {
    TrimOf(lead, "style", behind);
    FirstBlankOf("style", "");
    assert "style" + "" == "style";
  }

  lemma ScriptClassified(attribute: string, background: bool, left: nat)
    requires QuotedAttribute(attribute, "thread") == Some(ThreadName(background))
    ensures Classified("script", attribute, left) == Ok(if background then BackgroundThread else MainThread)
  {
  }

  lemma ScriptReads(lead: string, gap: string, quoting: Quoting, background: bool, behind: string, left: nat)
    requires ValidTag(ScriptTag(lead, gap, quoting, background, behind))
    ensures Opens(TagInside(ScriptTag(lead, gap, quoting, background, behind)),
                  if background then BackgroundThread else MainThread, left)
  {
    var attribute := AttributeText("thread", quoting, ThreadName(background));
    AttributeReads("thread", quoting, ThreadName(background));
    NoTagEndInAttribute("thread", quoting, ThreadName(background));
    ScriptClassified(attribute, background, left);
    TagReads(lead, "script", gap, attribute, behind);
  }

  lemma TagInsideReads(tag: SectionTag, left: nat)
    requires ValidTag(tag)
    ensures Opens(TagInside(tag), SlotOf(tag), left)
  {
    match tag
    case StyleTag(lead, behind) => StyleReads(lead, behind, left);
    case ScriptTag(lead, gap, quoting, background, behind) => ScriptReads(lead, gap, quoting, background, behind, left);
  }

  lemma SectionStartReads(tag: SectionTag, tail: string, done: seq<Section>)
    requires ValidTag(tag) && !Has(done, SlotOf(tag))
    ensures SectionStart(Tagged(TagInside(tag), tail), done) == Ok((SlotOf(tag), tail))
  {
    TagInsideReads(tag, |Tagged(TagInside(tag), tail)|);
    TaggedReads(TagInside(tag), tail);
  }

  lemma ScriptTagFound(lead: string, text: string, behind: string) returns (tag: SectionTag)
    requires AllBlank(lead) && AllBlank(behind) && Core(text)
    requires TagParts(text).0 == "script"
    requires QuotedAttribute(TagParts(text).1, "thread") == Some("main")
          || QuotedAttribute(TagParts(text).1, "thread") == Some("background")
    ensures ValidTag(tag) && TagInside(tag) == lead + text + behind
    ensures SlotOf(tag) == if QuotedAttribute(TagParts(text).1, "thread") == Some("main") then MainThread else BackgroundThread
  {
    AttributeIsSomething("thread");
    assert FirstBlank(text) < |text|;
    var gap := PartsFound(text);
    var quoting := AttributeFound(TagParts(text).1, "thread");
    var background := QuotedAttribute(TagParts(text).1, "thread") == Some("background");
    tag := ScriptTag(lead, gap, quoting, background, behind);
  }

  lemma StyleTagFound(lead: string, text: string, behind: string) returns (tag: SectionTag)
    requires AllBlank(lead) && AllBlank(behind) && Core(text)
    requires TagParts(text) == ("style", "")
    ensures tag == StyleTag(lead, behind) && ValidTag(tag) && TagInside(tag) == lead + text + behind
  {
    var gap := PartsFound(text);
    tag := StyleTag(lead, behind);
    assert text == "style" + gap;
  }

  lemma TagFound(inside: string, done: seq<Section>, left: nat) returns (tag: SectionTag)
    requires TagSlot(Trim(inside), done, left).Ok? && '>' !in inside
    ensures ValidTag(tag) && TagInside(tag) == inside
    ensures SlotOf(tag) == TagSlot(Trim(inside), done, left).value && !Has(done, SlotOf(tag))
  {
    var text := Trim(inside);
    var lead, behind := TrimSplits(inside);
    if TagParts(text).0 == "style" {
      tag := StyleTagFound(lead, text, behind);
    } else {
      tag := ScriptTagFound(lead, text, behind);
    }
  }

  lemma SectionStartFound(s: string, done: seq<Section>) returns (tag: SectionTag)
    requires SectionStart(s, done).Ok?
    ensures ValidTag(tag) && SlotOf(tag) == SectionStart(s, done).value.0 && !Has(done, SlotOf(tag))
    ensures s == Tagged(TagInside(tag), SectionStart(s, done).value.1)
  {
    TaggedFound(s);
    tag := TagFound(s[1..][..Search(s[1..], TAG_END).value], done, |s|);
  }

  // ------------------------------------------------------------ the bodies

  predicate IsClosing(closing: string) {
    closing == "</style>" || closing == "</script>"
  }

  lemma {:induction false} FreeBehind(before: string, s: string, p: string)
    requires Free(before + s, p)
    ensures Free(s, p)
    decreases |before|
  {
    if before == "" {
      assert before + s == s;
    } else {
      assert (before + s)[1..] == before[1..] + s;
      FreeBehind(before[1..], s, p);
    }
  }

  lemma {:induction false} FreeThroughBlank(blank: string, s: string, p: string)
    requires AllBlank(blank) && p != "" && !IsBlank(p[0])
    ensures Free(blank + s, p) <==> Free(s, p)
    decreases |blank|
  {
    if blank == "" {
      assert blank + s == s;
    } else {
      var text := blank + s;
      assert text[1..] == blank[1..] + s;
      assert text[0] == blank[0];
      Differs(text, p, 0);
      FreeThroughBlank(blank[1..], s, p);
    }
  }

  lemma EmptyIsFree(p: string)
    requires p != ""
    ensures Free("", p)
  {
  }

  lemma BlankIsFree(blank: string, p: string)
    requires AllBlank(blank) && p != "" && !IsBlank(p[0])
    ensures Free(blank, p)
  {
    EmptyIsFree(p);
    FreeThroughBlank(blank, "", p);
    assert blank + "" == blank;
  }

  /** A CDATA opening cannot be completed by a closing tag. */
  lemma NotCdata(core: string, closing: string, tail: string)
    requires IsClosing(closing) && !StartsWith(core, CDATA_START)
    ensures !StartsWith(core + closing + tail, CDATA_START)
  {
    var text := core + closing + tail;
    if core == "" {
      assert text[1] == '/';
      Differs(text, CDATA_START, 1);
    } else if |core| < 9 {
      assert text[|core|] == '<';
      Differs(text, CDATA_START, |core|);
    } else {
      assert text[..9] == core[..9];
    }
  }

  /** The text in front of the closing tag that ends a body. */
  function ContentText(s: string, closing: string): string
    requires SectionBody(s, closing).Ok?
  {
    var from := BodySearchStart(s).value;
    s[..|s| - |from| + Search(from, closing).value]
  }

  lemma RawLayout(blank: string, core: string, closing: string, tail: string)
    ensures var s := blank + core + closing + tail;
            var from := core + closing + tail;
            && s == blank + from && |s| - |from| == |blank|
            && s[..|blank| + |core|] == blank + core && from[|core| + |closing|..] == tail
  {
  }

  lemma RawSearch(blank: string, core: string, closing: string, tail: string)
    requires IsClosing(closing) && AllBlank(blank) && BeginsSolid(core) && !StartsWith(core, CDATA_START)
    ensures BodySearchStart(blank + core + closing + tail) == Ok(core + closing + tail)
  {
    var from := core + closing + tail;
    RawLayout(blank, core, closing, tail);
    assert from[0] == if core == "" then '<' else core[0];
    SkipBlankThrough(blank, from);
    NotCdata(core, closing, tail);
  }

  predicate BeginsSolid(s: string) {
    s != "" ==> !IsBlank(s[0])
  }

  lemma RawPartsRead(blank: string, core: string, closing: string, tail: string)
    requires IsClosing(closing) && AllBlank(blank) && BeginsSolid(core)
    requires !StartsWith(core, CDATA_START) && Free(core, closing)
    ensures SectionBody(blank + core + closing + tail, closing) == Ok((blank + core, tail))
  {
    RawLayout(blank, core, closing, tail);
    RawSearch(blank, core, closing, tail);
    SearchFindsEnd(core, closing, tail);
    SkipBlankThrough(blank, core);
    RawContent(blank + core, |blank + core + closing + tail|);
    SectionBodyOk(blank + core + closing + tail, closing, core + closing + tail, |core|, blank + core);
  }

  lemma RawReads(text: string, closing: string, tail: string)
    requires IsClosing(closing) && ValidBody(Raw(text), closing)
    ensures SectionBody(text + closing + tail, closing) == Ok((text, tail))
  {
    var core := SkipBlank(text);
    var blank := text[..|text| - |core|];
    SkipBlankSplits(text);
    assert text == blank + core;
    FreeBehind(blank, core, closing);
    RawPartsRead(blank, core, closing, tail);
  }

  lemma {:induction false} SectionBodyOk(s: string, closing: string, from: string, i: nat, content: string)
    requires BodySearchStart(s) == Ok(from) && Search(from, closing) == Some(i)
    requires Content(s[..|s| - |from| + i], |s|) == Ok(content)
    ensures SectionBody(s, closing) == Ok((content, from[i + |closing|..]))
  {
  }

  lemma RawContent(text: string, left: nat)
    requires !StartsWith(SkipBlank(text), CDATA_START)
    ensures Content(text, left) == Ok(text)
  {
    var core := SkipBlank(text);
    DropBlankEndSplits(core);
    PrefixHasNone(core, CDATA_START, |Trim(text)|);
  }

  lemma CdataLayout(text: string)
    ensures var inner := CDATA_START + text + CDATA_END;
            && Core(inner) && StartsWith(inner, CDATA_START) && |inner| >= 12
            && inner[|inner| - 3..] == CDATA_END && inner[9..|inner| - 3] == text
  {
  }

  lemma CdataContent(before: string, text: string, behind: string, left: nat)
    requires ValidBody(Cdata(before, text, behind), "")
    ensures Content(before + (CDATA_START + text + CDATA_END) + behind, left) == Ok(text)
  {
    CdataLayout(text);
    TrimOf(before, CDATA_START + text + CDATA_END, behind);
  }

  lemma CdataSearch(before: string, text: string, behind: string, tail: string)
    requires AllBlank(before) && Free(text, CDATA_END)
    ensures BodySearchStart(before + (CDATA_START + text + CDATA_END) + behind + tail) == Ok(behind + tail)
  {
    var t := CDATA_START + (text + CDATA_END + (behind + tail));
    assert before + (CDATA_START + text + CDATA_END) + behind + tail == before + t;
    assert t[0] == '<' && t[..9] == CDATA_START && t[9..] == text + CDATA_END + (behind + tail);
    SkipBlankThrough(before, t);
    SearchFindsEnd(text, CDATA_END, behind + tail);
    assert t[9..][|text| + 3..] == behind + tail;
  }

  lemma CdataReads(before: string, text: string, behind: string, closing: string, tail: string)
    requires IsClosing(closing) && ValidBody(Cdata(before, text, behind), closing)
    ensures SectionBody(before + (CDATA_START + text + CDATA_END) + behind + closing + tail, closing) == Ok((text, tail))
  {
    var body := before + (CDATA_START + text + CDATA_END) + behind;
    var s := body + closing + tail;
    var from := behind + closing + tail;
    assert s == body + (closing + tail) && from == behind + (closing + tail);
    CdataSearch(before, text, behind, closing + tail);
    BlankIsFree(behind, closing);
    SearchFindsEnd(behind, closing, tail);
    assert s[..|s| - |from| + |behind|] == body;
    assert from[|behind| + |closing|..] == tail;
    CdataContent(before, text, behind, |s|);
    SectionBodyOk(s, closing, from, |behind|, text);
  }

  lemma BodyReads(body: Body, closing: string, tail: string)
    requires IsClosing(closing) && ValidBody(body, closing)
    ensures SectionBody(BodyText(body) + closing + tail, closing) == Ok((BodyValue(body), tail))
  {
    match body
    case Raw(text) => RawReads(text, closing, tail);
    case Cdata(before, text, behind) => CdataReads(before, text, behind, closing, tail);
  }

  lemma SearchStartIsSuffix(s: string)
    requires BodySearchStart(s).Ok?
    ensures var from := BodySearchStart(s).value; from == s[|s| - |from|..]
  {
    SkipBlankSplits(s);
  }

  lemma TakeFurther(s: string, n: nat, i: nat)
    requires n + i <= |s|
    ensures s[..n + i] == s[..n] + s[n..][..i] && s == s[..n] + s[n..]
  {
  }

  lemma Regroup(a: string, b: string, c: string, d: string)
    ensures a + (b + c + d) == a + b + c + d
  {
  }

  lemma JoinSuffix(head: string, from: string, text: string, closing: string, rest: string)
    requires from == text + closing + rest
    ensures head + from == head + text + closing + rest
  {
    Regroup(head, text, closing, rest);
  }

  lemma SuffixSplitsAt(s: string, from: string, closing: string, i: nat)
    requires |from| <= |s| && s[|s| - |from|..] == from && i + |closing| <= |from|
    requires from == from[..i] + closing + from[i + |closing|..]
    ensures s == s[..|s| - |from| + i] + closing + from[i + |closing|..]
  {
    var n := |s| - |from|;
    TakeFurther(s, n, i);
    JoinSuffix(s[..n], from, from[..i], closing, from[i + |closing|..]);
  }

  lemma SuffixSplits(s: string, from: string, closing: string, i: nat)
    requires |from| <= |s| && s[|s| - |from|..] == from
    requires closing != "" && Search(from, closing) == Some(i)
    ensures s == s[..|s| - |from| + i] + closing + from[i + |closing|..]
  {
    SearchSplits(from, closing);
    SuffixSplitsAt(s, from, closing, i);
  }

  lemma ContentTextRead(s: string, closing: string) returns (from: string, i: nat)
    requires SectionBody(s, closing).Ok?
    ensures BodySearchStart(s) == Ok(from) && Search(from, closing) == Some(i)
    ensures Content(ContentText(s, closing), |s|) == Ok(SectionBody(s, closing).value.0)
    ensures ContentText(s, closing) == s[..|s| - |from| + i]
    ensures SectionBody(s, closing).value.1 == from[i + |closing|..]
  {
    from := BodySearchStart(s).value;
    i := Search(from, closing).value;
  }

  /** Where the closing tag was found, the text splits around it. */
  lemma BodySplits(s: string, closing: string)
    requires closing != "" && SectionBody(s, closing).Ok?
    ensures s == ContentText(s, closing) + closing + SectionBody(s, closing).value.1
  {
    var from, i := ContentTextRead(s, closing);
    SearchStartIsSuffix(s);
    SuffixSplits(s, from, closing, i);
  }

  lemma {:induction false} PrefixSurvives(s: string, p: string)
    requires StartsWith(s, p) && p != "" && !IsBlank(p[|p| - 1])
    ensures StartsWith(DropBlankEnd(s), p)
    decreases |s|
  {
    if IsBlank(s[|s| - 1]) {
      assert s[..|p|][|p| - 1] == s[|p| - 1];
      assert s[..|s| - 1][..|p|] == s[..|p|];
      PrefixSurvives(s[..|s| - 1], p);
    }
  }

  lemma CdataFound(text: string, left: nat) returns (body: Body)
    requires Content(text, left).Ok? && StartsWith(Trim(text), CDATA_START)
    ensures body.Cdata? && ValidBody(body, "") && BodyText(body) == text && BodyValue(body) == Content(text, left).value
  {
    var trimmed := Trim(text);
    var before, behind := TrimSplits(text);
    var inside := trimmed[9..|trimmed| - 3];
    body := Cdata(before, inside, behind);
    assert trimmed == trimmed[..9] + inside + trimmed[|trimmed| - 3..];
  }

  /** A body that does not begin as a CDATA section has its closing tag
      found right behind it. */
  lemma RawFound(s: string, closing: string)
    requires IsClosing(closing) && SectionBody(s, closing).Ok? && !StartsWith(SkipBlank(s), CDATA_START)
    ensures ValidBody(Raw(ContentText(s, closing)), closing)
  {
    var from := SkipBlank(s);
    var i := Search(from, closing).value;
    var blank := s[..|s| - |from|];
    var text := ContentText(s, closing);
    SkipBlankSplits(s);
    SearchIsFirst(from, closing);
    TakeFurther(s, |blank|, i);
    assert text == blank + from[..i];
    FreeThroughBlank(blank, from[..i], closing);
    SkipBlankThrough(blank, from[..i]);
    assert from[..i] != "" ==> from[..i][0] == from[0];
    assert SkipBlank(text) == from[..i];
    PrefixHasNone(from, CDATA_START, i);
  }

  lemma ContentTextHoldsCdata(s: string, closing: string)
    requires closing != "" && SectionBody(s, closing).Ok? && StartsWith(SkipBlank(s), CDATA_START)
    ensures var n := |s| - |SkipBlank(s)|;
            |ContentText(s, closing)| >= n + 9 && ContentText(s, closing) == s[..|ContentText(s, closing)|]
  {
  }

  /** A body whose text begins as a CDATA section still does once its
      closing tag was found. */
  lemma CdataStays(s: string, closing: string)
    requires closing != "" && SectionBody(s, closing).Ok? && StartsWith(SkipBlank(s), CDATA_START)
    ensures StartsWith(Trim(ContentText(s, closing)), CDATA_START)
  {
    var t, m := SkipBlank(s), |ContentText(s, closing)|;
    var n := |s| - |t|;
    SkipBlankSplits(s);
    ContentTextHoldsCdata(s, closing);
    SliceStays(s, t, n, m);
    SkipBlankThrough(s[..n], s[n..m]);
    PrefixSurvives(s[n..m], CDATA_START);
  }

  lemma SliceStays(s: string, t: string, n: nat, m: nat)
    requires n + 9 <= m <= |s| && s[n..] == t && StartsWith(t, CDATA_START)
    ensures s[..m] == s[..n] + s[n..m] && StartsWith(s[n..m], CDATA_START) && SkipBlank(s[n..m]) == s[n..m]
  {
    assert s[n..m][..9] == t[..9] && s[n..m][0] == t[..9][0];
  }

  lemma BodyFound(s: string, closing: string) returns (body: Body)
    requires IsClosing(closing) && SectionBody(s, closing).Ok?
    ensures ValidBody(body, closing) && BodyValue(body) == SectionBody(s, closing).value.0
    ensures s == BodyText(body) + closing + SectionBody(s, closing).value.1
  {
    var text := ContentText(s, closing);
    BodySplits(s, closing);
    var _, _ := ContentTextRead(s, closing);
    if StartsWith(SkipBlank(s), CDATA_START) {
      CdataStays(s, closing);
      body := CdataFound(text, |s|);
    } else {
      RawFound(s, closing);
      RawContent(text, |s|);
      body := Raw(text);
    }
  }

  // ---------------------------------------------------------- the sections

  lemma SectionTextStarts(tag: SectionTag, body: Body, tail: string)
    requires ValidTag(tag)
    ensures var s := SectionText(tag, body, tail);
            && |s| >= 2 && s[0] == '<' && s[1] != '/'
            && Settled(s) && !StartsWith(s, ROOT_END)
  {
    var s := SectionText(tag, body, tail);
    assert s[1] == TagInside(tag)[0];
    assert TagInside(tag)[0] == if tag.lead != "" then tag.lead[0] else 's';
    Differs(s, COMMENT_START, 1);
    Differs(s, ROOT_END, 1);
  }

  lemma RootEndStarts(tail: string)
    ensures var s := ROOT_END + tail; Settled(s) && StartsWith(s, ROOT_END) && s[7..] == tail
  {
    var s := ROOT_END + tail;
    assert s[0] == '<' && s[1] == '/';
    Differs(s, COMMENT_START, 1);
  }

  lemma SectionReads(p: Placed, tail: string, done: seq<Section>)
    requires ValidPlaced(p) && !Has(done, SlotOf(p.tag))
    ensures SectionAt(SectionText(p.tag, p.body, tail), done) == Ok((Section(SlotOf(p.tag), BodyValue(p.body)), tail))
  {
    var closing := ClosingTag(SlotOf(p.tag));
    SectionStartReads(p.tag, BodyText(p.body) + closing + tail, done);
    BodyReads(p.body, closing, tail);
  }

  lemma SectionsStep(pieces: seq<Piece>, s: string, done: seq<Section>, section: Section, rest: string)
    requires ValidPieces(pieces) && Settled(s) && !StartsWith(s, ROOT_END) && s != ""
    requires SectionAt(s, done) == Ok((section, rest))
    ensures Sections(PiecesText(pieces) + s, done) == Sections(rest, done + [section])
  {
    PiecesRead(pieces, s);
    SectionsGoOn(PiecesText(pieces) + s, s, done, section, rest);
  }

  lemma NotYet(done: seq<Section>, section: Section, more: seq<Section>)
    requires EachOnce(done + ([section] + more))
    ensures !Has(done, section.slot) && EachOnce(done + [section] + more)
  {
    var all := done + ([section] + more);
    assert all[|done|] == section && done + [section] + more == all;
    assert forall i :: 0 <= i < |done| ==> all[i] == done[i];
  }

  lemma OneMorePlaced(p: Placed, more: seq<Placed>, end: seq<Piece>, tail: string, done: seq<Section>)
    ensures SectionsText([p] + more, end, tail)
         == PiecesText(p.before) + SectionText(p.tag, p.body, SectionsText(more, end, tail))
    ensures done + [Section(SlotOf(p.tag), BodyValue(p.body))] + ValuesOf(more) == done + ValuesOf([p] + more)
  {
    assert ([p] + more)[1..] == more;
  }

  lemma PlacedReads(p: Placed, rest: string, done: seq<Section>)
    requires ValidPlaced(p) && !Has(done, SlotOf(p.tag))
    ensures var section := Section(SlotOf(p.tag), BodyValue(p.body));
            Sections(PiecesText(p.before) + SectionText(p.tag, p.body, rest), done) == Sections(rest, done + [section])
  {
    SectionTextStarts(p.tag, p.body, rest);
    SectionReads(p, rest, done);
    SectionsStep(p.before, SectionText(p.tag, p.body, rest), done, Section(SlotOf(p.tag), BodyValue(p.body)), rest);
  }

  lemma {:induction false} SectionsRead(sections: seq<Placed>, end: seq<Piece>, tail: string, done: seq<Section>)
    requires (forall i :: 0 <= i < |sections| ==> ValidPlaced(sections[i])) && ValidPieces(end)
    requires EachOnce(done + ValuesOf(sections))
    ensures Sections(SectionsText(sections, end, tail), done) == Ok((done + ValuesOf(sections), tail))
    decreases |sections|
  {
    if sections == [] {
      RootEndStarts(tail);
      PiecesRead(end, ROOT_END + tail);
      assert done + [] == done;
    } else {
      var p, more := sections[0], sections[1..];
      var rest := SectionsText(more, end, tail);
      var section := Section(SlotOf(p.tag), BodyValue(p.body));
      assert sections == [p] + more;
      OneMorePlaced(p, more, end, tail, done);
      NotYet(done, section, ValuesOf(more));
      PlacedReads(p, rest, done);
      SectionsRead(more, end, tail, done + [section]);
    }
  }

  lemma SectionFound(s: string, done: seq<Section>) returns (tag: SectionTag, body: Body)
    requires SectionAt(s, done).Ok?
    ensures ValidTag(tag) && ValidBody(body, ClosingTag(SlotOf(tag))) && !Has(done, SlotOf(tag))
    ensures SectionAt(s, done).value.0 == Section(SlotOf(tag), BodyValue(body))
    ensures s == SectionText(tag, body, SectionAt(s, done).value.1)
  {
    var (slot, text) := SectionStart(s, done).value;
    tag := SectionStartFound(s, done);
    body := BodyFound(text, ClosingTag(slot));
  }

  lemma OnceMore(done: seq<Section>, section: Section)
    requires EachOnce(done) && !Has(done, section.slot)
    ensures EachOnce(done + [section])
  {
  }

  lemma SectionsUnfold(s: string, done: seq<Section>)
    requires Sections(s, done).Ok?
    ensures Ignorable(s).Ok?
    ensures var t := Ignorable(s).value;
            if StartsWith(t, ROOT_END) then Sections(s, done).value == (done, t[7..])
            else SectionAt(t, done).Ok? && |t| <= |s|
                 && Sections(s, done) == Sections(SectionAt(t, done).value.1, done + [SectionAt(t, done).value.0])
  {
  }

  /** The sections and what is behind them wrote `s`, whose sections come
      behind those in `done`. */
  ghost predicate Wrote(s: string, done: seq<Section>, sections: seq<Placed>, end: seq<Piece>)
    requires Sections(s, done).Ok?
  {
    && (forall i :: 0 <= i < |sections| ==> ValidPlaced(sections[i])) && ValidPieces(end)
    && s == SectionsText(sections, end, Sections(s, done).value.1)
    && Sections(s, done).value.0 == done + ValuesOf(sections) && EachOnce(done + ValuesOf(sections))
  }

  lemma NoMoreWrote(s: string, done: seq<Section>, pieces: seq<Piece>, t: string)
    requires StartsWith(t, ROOT_END) && Sections(s, done) == Ok((done, t[7..])) && EachOnce(done)
    requires ValidPieces(pieces) && s == PiecesText(pieces) + t
    ensures Wrote(s, done, [], pieces)
  {
    assert t == ROOT_END + t[7..];
    assert done + [] == done;
  }

  lemma OneMoreWrote(s: string, done: seq<Section>, p: Placed, rest: string, more: seq<Placed>, end: seq<Piece>)
    requires var section := Section(SlotOf(p.tag), BodyValue(p.body));
             && Sections(s, done).Ok? && Sections(s, done) == Sections(rest, done + [section])
             && Wrote(rest, done + [section], more, end)
    requires ValidPlaced(p) && s == PiecesText(p.before) + SectionText(p.tag, p.body, rest)
    ensures Wrote(s, done, [p] + more, end)
  {
    OneMorePlaced(p, more, end, Sections(s, done).value.1, done);
  }

  lemma {:induction false} SectionsFound(s: string, done: seq<Section>) returns (sections: seq<Placed>, end: seq<Piece>)
    requires Sections(s, done).Ok? && EachOnce(done)
    ensures Wrote(s, done, sections, end)
    decreases |s|
  {
    SectionsUnfold(s, done);
    var t := Ignorable(s).value;
    var pieces := PiecesFound(s);
    if StartsWith(t, ROOT_END) {
      NoMoreWrote(s, done, pieces, t);
      sections, end := [], pieces;
    } else {
      var tag, body := SectionFound(t, done);
      var (section, rest) := SectionAt(t, done).value;
      OnceMore(done, section);
      var more;
      more, end := SectionsFound(rest, done + [section]);
      OneMoreWrote(s, done, Placed(pieces, tag, body), rest, more, end);
      sections := [Placed(pieces, tag, body)] + more;
    }
  }

  // ---------------------------------------------------------- the document

  function DeclarationText(d: Option<(string, seq<Piece>)>, tail: string): string {
    match d
    case None => tail
    case Some((text, pieces)) => DECLARATION_START + (text + DECLARATION_END + (PiecesText(pieces) + tail))
  }

  function DoctypeText(d: Option<(DoctypeTag, seq<Piece>)>, tail: string): string {
    match d
    case None => tail
    case Some((tag, pieces)) => "<!" + (DoctypeInside(tag) + TAG_END + (PiecesText(pieces) + tail))
  }

  function PrologueText(l: Layout, tail: string): string {
    (if l.mark then [BYTE_ORDER_MARK] else [])
    + (PiecesText(l.start) + DeclarationText(l.declaration, DoctypeText(l.doctype, tail)))
  }

  function LayoutText(l: Layout): string {
    PrologueText(l, Tagged(RootInside(l.root), SectionsText(l.sections, l.end, PiecesText(l.after))))
  }

  /** Every part is written properly, no section is written twice, and the
      main script is written. */
  ghost predicate ValidLayout(l: Layout) {
    && ValidPrologue(l)
    && ValidRoot(l.root)
    && (forall i :: 0 <= i < |l.sections| ==> ValidPlaced(l.sections[i]))
    && ValidPieces(l.end) && ValidPieces(l.after)
    && EachOnce(ValuesOf(l.sections))
    && Has(ValuesOf(l.sections), MainThread)
  }

  predicate ValidPrologue(l: Layout) {
    && ValidPieces(l.start)
    && (l.declaration.Some? ==> Free(l.declaration.value.0, DECLARATION_END) && ValidPieces(l.declaration.value.1))
    && (l.doctype.Some? ==> ValidDoctype(l.doctype.value.0) && ValidPieces(l.doctype.value.1))
  }

  /** The values a layout writes. */
  function LayoutValue(l: Layout): Document
    requires Has(ValuesOf(l.sections), MainThread)
  {
    var sections := ValuesOf(l.sections);
    ContentOfWhenHas(sections, MainThread);
    Document(l.root.version, ContentOf(sections, Style), ContentOf(sections, MainThread).value,
             ContentOf(sections, BackgroundThread))
  }

  lemma DeclarationReads(d: Option<(string, seq<Piece>)>, tail: string)
    requires d.Some? ==> Free(d.value.0, DECLARATION_END) && ValidPieces(d.value.1)
    requires Settled(tail) && !StartsWith(tail, DECLARATION_START)
    ensures Declaration(DeclarationText(d, tail)) == Ok(tail) && Settled(DeclarationText(d, tail))
    ensures d.Some? ==> DeclarationText(d, tail)[0] == '<'
  {
    if d.Some? {
      var (text, pieces) := d.value;
      var s, rest := DeclarationText(d, tail), PiecesText(pieces) + tail;
      assert s[0] == '<' && s[1] == '?' && s[..5] == DECLARATION_START && s[5..] == text + DECLARATION_END + rest;
      Differs(s, COMMENT_START, 1);
      SearchFindsEnd(text, DECLARATION_END, rest);
      assert s[5..][|text| + 2..] == rest;
      PiecesRead(pieces, tail);
    }
  }

  lemma DoctypeReads(d: Option<(DoctypeTag, seq<Piece>)>, tail: string)
    requires d.Some? ==> ValidDoctype(d.value.0) && ValidPieces(d.value.1)
    requires Settled(tail) && !StartsWith(tail, "<!") && !StartsWith(tail, DECLARATION_START)
    ensures var s := DoctypeText(d, tail);
            Doctype(s) == Ok(tail) && Settled(s) && !StartsWith(s, DECLARATION_START) && (d.Some? ==> s[0] == '<')
  {
    if d.Some? {
      var (tag, pieces) := d.value;
      var s, inside, rest := DoctypeText(d, tail), DoctypeInside(tag), PiecesText(pieces) + tail;
      DoctypeInsideReads(tag);
      assert s[0] == '<' && s[1] == '!' && s[2] == inside[0] && s[..2] == "<!";
      assert s[2..] == inside + TAG_END + rest;
      Differs(s, COMMENT_START, 2);
      Differs(s, DECLARATION_START, 1);
      FreeOfTagEnd(inside);
      SearchFindsEnd(inside, TAG_END, rest);
      assert s[2..][..|inside|] == inside && s[2..][|inside| + 1..] == rest;
      PiecesRead(pieces, tail);
    }
  }

  lemma MarkReads(l: Layout, rest: string, tail: string)
    requires ValidPieces(l.start) && Settled(rest) && rest != "" && rest[0] == '<'
    requires tail == PiecesText(l.start) + rest
    ensures var s := (if l.mark then [BYTE_ORDER_MARK] else []) + tail;
            (if s != "" && s[0] == BYTE_ORDER_MARK then s[1..] else s) == tail
  {
    PiecesTextStarts(l.start, rest);
  }

  lemma {:induction false} PiecesTextStarts(pieces: seq<Piece>, rest: string)
    requires ValidPieces(pieces) && rest != "" && rest[0] == '<'
    ensures var s := PiecesText(pieces) + rest; s != "" && s[0] != BYTE_ORDER_MARK
    decreases |pieces|
  {
    if pieces == [] {
    } else {
      PiecesTextStarts(pieces[1..], rest);
      assert PiecesText(pieces) + rest == PieceText(pieces[0]) + (PiecesText(pieces[1..]) + rest);
    }
  }

  lemma PrologueReads(l: Layout, tail: string)
    requires ValidPrologue(l) && |tail| >= 2 && tail[0] == '<' && tail[1] != '!' && tail[1] != '?'
    ensures Prologue(PrologueText(l, tail)) == Ok(tail)
  {
    Differs(tail, COMMENT_START, 1);
    Differs(tail, DECLARATION_START, 1);
    Differs(tail, "<!", 1);
    var u := DoctypeText(l.doctype, tail);
    DoctypeReads(l.doctype, tail);
    var t := DeclarationText(l.declaration, u);
    DeclarationReads(l.declaration, u);
    MarkReads(l, t, PiecesText(l.start) + t);
    PiecesRead(l.start, t);
  }

  /** What a layout writes is what the parser reads. */
  lemma WrittenIsRead(l: Layout)
    requires ValidLayout(l)
    ensures Parsed(LayoutText(l)) == Ok(LayoutValue(l))
  {
    var u := SectionsText(l.sections, l.end, PiecesText(l.after));
    var t := Tagged(RootInside(l.root), u);
    assert t[0] == '<' && t[1] == 'l';
    PrologueReads(l, t);
    RootReads(l.root, u);
    assert [] + ValuesOf(l.sections) == ValuesOf(l.sections);
    SectionsRead(l.sections, l.end, PiecesText(l.after), []);
    PiecesRead(l.after, "");
    assert PiecesText(l.after) + "" == PiecesText(l.after);
    ContentOfWhenHas(ValuesOf(l.sections), MainThread);
  }

  lemma DeclarationFound(s: string) returns (d: Option<(string, seq<Piece>)>)
    requires Declaration(s).Ok?
    ensures d.Some? ==> Free(d.value.0, DECLARATION_END) && ValidPieces(d.value.1)
    ensures s == DeclarationText(d, Declaration(s).value)
  {
    if !StartsWith(s, DECLARATION_START) {
      d := None;
    } else {
      var i := Search(s[5..], DECLARATION_END).value;
      SearchSplits(s[5..], DECLARATION_END);
      var pieces := PiecesFound(s[5..][i + 2..]);
      d := Some((s[5..][..i], pieces));
      assert s == DECLARATION_START + s[5..];
    }
  }

  lemma DoctypeFound(s: string) returns (d: Option<(DoctypeTag, seq<Piece>)>)
    requires Doctype(s).Ok?
    ensures d.Some? ==> ValidDoctype(d.value.0) && ValidPieces(d.value.1)
    ensures s == DoctypeText(d, Doctype(s).value)
  {
    if !StartsWith(s, "<!") {
      d := None;
    } else {
      var i := Search(s[2..], TAG_END).value;
      SearchSplits(s[2..], TAG_END);
      var tag := DoctypeInsideFound(s[2..][..i]);
      var pieces := PiecesFound(s[2..][i + 1..]);
      d := Some((tag, pieces));
      assert s == "<!" + s[2..];
    }
  }

  lemma PrologueFound(s: string)
      returns (mark: bool, start: seq<Piece>, declaration: Option<(string, seq<Piece>)>, doctype: Option<(DoctypeTag, seq<Piece>)>)
    requires Prologue(s).Ok?
    ensures ValidPieces(start)
    ensures declaration.Some? ==> Free(declaration.value.0, DECLARATION_END) && ValidPieces(declaration.value.1)
    ensures doctype.Some? ==> ValidDoctype(doctype.value.0) && ValidPieces(doctype.value.1)
    ensures s == (if mark then [BYTE_ORDER_MARK] else [])
                 + (PiecesText(start) + DeclarationText(declaration, DoctypeText(doctype, Prologue(s).value)))
  {
    mark := s != "" && s[0] == BYTE_ORDER_MARK;
    var body := if mark then s[1..] else s;
    assert s == (if mark then [BYTE_ORDER_MARK] else []) + body;
    start := PiecesFound(body);
    var t := Ignorable(body).value;
    declaration := DeclarationFound(t);
    doctype := DoctypeFound(Declaration(t).value);
  }

  lemma EndFound(version: string, done: seq<Section>, s: string) returns (after: seq<Piece>)
    requires Finished(version, done, s).Ok?
    ensures ValidPieces(after) && PiecesText(after) == s && Has(done, MainThread)
    ensures Finished(version, done, s).value
         == Document(version, ContentOf(done, Style), ContentOf(done, MainThread).value, ContentOf(done, BackgroundThread))
  {
    after := PiecesFound(s);
    assert PiecesText(after) + "" == PiecesText(after);
    ContentOfWhenHas(done, MainThread);
  }

  lemma ParsedParts(s: string)
    requires Parsed(s).Ok?
    ensures Prologue(s).Ok?
    ensures var t := Prologue(s).value;
            RootStart(t).Ok? &&
            var (version, u) := RootStart(t).value;
            Sections(u, []).Ok? &&
            var (done, v) := Sections(u, []).value;
            Finished(version, done, v) == Parsed(s)
  {
  }

  /** Everything the parser accepts was written by some layout, with the
      values it reads. */
  lemma ReadWasWritten(s: string) returns (l: Layout)
    requires Parsed(s).Ok?
    ensures ValidLayout(l) && LayoutText(l) == s && LayoutValue(l) == Parsed(s).value
  {
    ParsedParts(s);
    var mark, start, declaration, doctype := PrologueFound(s);
    var t := Prologue(s).value;
    var root := RootFound(t);
    var (version, u) := RootStart(t).value;
    var sections, end := SectionsFound(u, []);
    var (done, v) := Sections(u, []).value;
    var after := EndFound(version, done, v);
    assert [] + ValuesOf(sections) == ValuesOf(sections);
    l := Layout(mark, start, declaration, doctype, root, sections, end, after);
  }

  /** The parser accepts exactly the documents of the grammar, and reads from
      each exactly the values that were written. */
  lemma AcceptsExactlyTheGrammar(s: string, d: Document)
    ensures Parsed(s) == Ok(d) <==> exists l :: ValidLayout(l) && LayoutText(l) == s && LayoutValue(l) == d
  {
    if Parsed(s) == Ok(d) {
      var l := ReadWasWritten(s);
    }
    forall l | ValidLayout(l) && LayoutText(l) == s && LayoutValue(l) == d ensures Parsed(s) == Ok(d) {
      WrittenIsRead(l);
    }
  }
}
