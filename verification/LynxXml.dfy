/** The parser of Lynx XML, the single-file markup source format: what it
    accepts, as functions of the text that is left to read, and the parser
    that computes them by moving a position. */
module LynxXml {
  import opened Options
  import opened Texts

  // ------------------------------------------------------------ the result

  datatype Slot = Style | MainThread | BackgroundThread

  datatype Section = Section(slot: Slot, content: string)

  datatype Document = Document(
    engineVersion: string,
    style: Option<string>,
    mainThreadScript: string,
    backgroundThreadScript: Option<string>)

  datatype Problem =
    | UnterminatedDeclaration | UnterminatedComment | UnterminatedDoctype | ExpectedDoctype
    | ExpectedRoot | UnterminatedRoot | RootNeedsVersion
    | ContentOutsideSection | UnterminatedTag | UnexpectedClosingTag
    | StyleTakesNoAttributes | ScriptNeedsThread | UnsupportedTag(name: string) | DuplicateSection(tag: string)
    | UnterminatedCdata | MissingClosingTag(tag: string) | TextAfterCdata
    | MissingRootEnd | TrailingContent | MissingMainScript

  /** A failure names how much text was left where it is reported. */
  datatype Outcome<+T> = Ok(value: T) | Bad(problem: Problem, left: nat)

  const DECLARATION_START := "<?xml"
  const DECLARATION_END := "?>"
  const COMMENT_START := "<!--"
  const COMMENT_END := "-->"
  const CDATA_START := "<![CDATA["
  const CDATA_END := "]]>"
  const ROOT_END := "</lynx>"
  const TAG_END := ">"
  const BYTE_ORDER_MARK := 0xfeff as char

  // ------------------------------------------------------------ characters

  predicate IsBlank(c: char) {
    c == ' ' || c == '\t' || c == '\n' || c == '\r' || c as int == 12
  }

  predicate AllBlank(s: string) {
    forall i :: 0 <= i < |s| ==> IsBlank(s[i])
  }

  function SkipBlank(s: string): (r: string)
    ensures |r| <= |s|
  {
    if s != "" && IsBlank(s[0]) then SkipBlank(s[1..]) else s
  }

  function DropBlankEnd(s: string): (r: string)
    ensures |r| <= |s|
  {
    if s != "" && IsBlank(s[|s| - 1]) then DropBlankEnd(s[..|s| - 1]) else s
  }

  function Trim(s: string): string {
    DropBlankEnd(SkipBlank(s))
  }

  /** Where the first blank stands, or the length of `s`. */
  function FirstBlank(s: string): (i: nat)
    ensures i <= |s|
    ensures i < |s| ==> IsBlank(s[i])
    ensures forall j :: 0 <= j < i ==> !IsBlank(s[j])
  {
    if s == "" || IsBlank(s[0]) then 0 else 1 + FirstBlank(s[1..])
  }

  function FirstOf(s: string, c: char): (i: nat)
    ensures i <= |s|
    ensures i < |s| ==> s[i] == c
    ensures forall j :: 0 <= j < i ==> s[j] != c
  {
    if s == "" || s[0] == c then 0 else 1 + FirstOf(s[1..], c)
  }

  function LowerChar(c: char): char {
    if 'A' <= c <= 'Z' then (c as int + 32) as char else c
  }

  predicate EqualIgnoringCase(s: string, t: string) {
    |s| == |t| && forall i :: 0 <= i < |s| ==> LowerChar(s[i]) == LowerChar(t[i])
  }

  // ------------------------------------------------------ what is accepted

  /** What is left behind blanks and comments. */
  function Ignorable(s: string): (r: Outcome<string>)
    ensures r.Ok? ==> |r.value| <= |s|
    decreases |s|
  {
    var t := SkipBlank(s);
    if !StartsWith(t, COMMENT_START) then Ok(t)
    else
      match Search(t[4..], COMMENT_END)
      case None => Bad(UnterminatedComment, |t|)
      case Some(i) => Ignorable(t[4..][i + 3..])
  }

  function Declaration(s: string): Outcome<string> {
    if !StartsWith(s, DECLARATION_START) then Ok(s)
    else
      match Search(s[5..], DECLARATION_END)
      case None => Bad(UnterminatedDeclaration, |s|)
      case Some(i) => Ignorable(s[5..][i + 2..])
  }

  predicate IsDoctype(declaration: string) {
    var text := Trim(declaration);
    var end := FirstBlank(text);
    end < |text| && EqualIgnoringCase(text[..end], "doctype") && EqualIgnoringCase(Trim(text[end..]), "lynx")
  }

  function Doctype(s: string): Outcome<string> {
    if !StartsWith(s, "<!") then Ok(s)
    else
      match Search(s[2..], TAG_END)
      case None => Bad(UnterminatedDoctype, |s|)
      case Some(i) => if IsDoctype(s[2..][..i]) then Ignorable(s[2..][i + 1..]) else Bad(ExpectedDoctype, |s|)
  }

  /** The value of the one attribute `name` that `attributes` consists of. */
  function QuotedAttribute(attributes: string, name: string): Option<string> {
    if !StartsWith(attributes, name) then None
    else
      var afterName := Trim(attributes[|name|..]);
      if afterName == "" || afterName[0] != '=' then None
      else
        var quoted := Trim(afterName[1..]);
        if |quoted| < 2 || (quoted[0] != '"' && quoted[0] != '\'') then None
        else
          var end := FirstOf(quoted[1..], quoted[0]) + 1;
          if end == |quoted| - 1 then Some(quoted[1..end]) else None
  }

  predicate OpensRoot(s: string) {
    StartsWith(s, "<lynx") && |s| > 5 && (s[5] == '>' || IsBlank(s[5]))
  }

  /** A tag's text split into its name and what follows it. */
  function TagParts(text: string): (string, string) {
    var end := FirstBlank(text);
    (text[..end], Trim(text[end..]))
  }

  /** The root's version, and what is left behind its opening tag. */
  function RootStart(s: string): Outcome<(string, string)> {
    if !OpensRoot(s) then Bad(ExpectedRoot, |s|)
    else
      match Search(s[1..], TAG_END)
      case None => Bad(UnterminatedRoot, |s|)
      case Some(i) =>
        match QuotedAttribute(TagParts(Trim(s[1..][..i])).1, "engine-version")
        case None => Bad(RootNeedsVersion, |s|)
        case Some(version) => if version == "" then Bad(RootNeedsVersion, |s|) else Ok((version, s[1..][i + 1..]))
  }

  function ClosingTag(slot: Slot): string {
    if slot == Style then "</style>" else "</script>"
  }

  function Classified(tag: string, attributes: string, left: nat): Outcome<Slot> {
    if tag == "style" then
      if attributes == "" then Ok(Style) else Bad(StyleTakesNoAttributes, left)
    else if tag == "script" then
      match QuotedAttribute(attributes, "thread")
      case Some(value) =>
        if value == "main" then Ok(MainThread)
        else if value == "background" then Ok(BackgroundThread)
        else Bad(ScriptNeedsThread, left)
      case None => Bad(ScriptNeedsThread, left)
    else Bad(UnsupportedTag(tag), left)
  }

  predicate Has(done: seq<Section>, slot: Slot) {
    exists i :: 0 <= i < |done| && done[i].slot == slot
  }

  /** Which section a trimmed tag opens behind the sections in `done`. */
  function TagSlot(tag: string, done: seq<Section>, left: nat): Outcome<Slot> {
    if tag == "" || tag[0] == '/' then Bad(UnexpectedClosingTag, left)
    else
      match Classified(TagParts(tag).0, TagParts(tag).1, left)
      case Bad(problem, where) => Bad(problem, where)
      case Ok(slot) => if Has(done, slot) then Bad(DuplicateSection(tag), left) else Ok(slot)
  }

  /** The tag whose text starts `t`, and what is left behind it. */
  function TagAt(t: string, done: seq<Section>, left: nat): Outcome<(Slot, string)> {
    match Search(t, TAG_END)
    case None => Bad(UnterminatedTag, left)
    case Some(i) =>
      match TagSlot(Trim(t[..i]), done, left)
      case Bad(problem, where) => Bad(problem, where)
      case Ok(slot) => Ok((slot, t[i + 1..]))
  }

  /** A section's opening tag: which section it opens, and what is left. */
  function SectionStart(s: string, done: seq<Section>): Outcome<(Slot, string)> {
    if s == "" || s[0] != '<' then Bad(ContentOutsideSection, |s|) else TagAt(s[1..], done, |s|)
  }

  /** A section's text as its value: a CDATA section gives its inside. */
  function Content(text: string, left: nat): Outcome<string> {
    var trimmed := Trim(text);
    if !StartsWith(trimmed, CDATA_START) then Ok(text)
    else if |trimmed| < 12 || trimmed[|trimmed| - 3..] != CDATA_END then Bad(UnterminatedCdata, left)
    else
      var inside := trimmed[9..|trimmed| - 3];
      if Free(inside, CDATA_END) then Ok(inside) else Bad(TextAfterCdata, left)
  }

  /** Where the search for the closing tag starts: past a CDATA section. */
  function BodySearchStart(s: string): (r: Outcome<string>)
    ensures r.Ok? ==> |r.value| <= |s|
  {
    var t := SkipBlank(s);
    if !StartsWith(t, CDATA_START) then Ok(t)
    else
      match Search(t[9..], CDATA_END)
      case None => Bad(UnterminatedCdata, |t|)
      case Some(i) => Ok(t[9..][i + 3..])
  }

  /** A section's content and what is left behind its closing tag. */
  function SectionBody(s: string, closing: string): Outcome<(string, string)> {
    match BodySearchStart(s)
    case Bad(problem, left) => Bad(problem, left)
    case Ok(from) =>
      match Search(from, closing)
      case None => Bad(MissingClosingTag(closing), |s|)
      case Some(i) =>
        match Content(s[..|s| - |from| + i], |s|)
        case Bad(problem, left) => Bad(problem, left)
        case Ok(content) => Ok((content, from[i + |closing|..]))
  }

  function SectionAt(s: string, done: seq<Section>): (r: Outcome<(Section, string)>)
    ensures r.Ok? ==> |r.value.1| < |s|
  {
    match SectionStart(s, done)
    case Bad(problem, left) => Bad(problem, left)
    case Ok((slot, body)) =>
      match SectionBody(body, ClosingTag(slot))
      case Bad(problem, left) => Bad(problem, left)
      case Ok((content, rest)) => Ok((Section(slot, content), rest))
  }

  /** Every section up to the root's closing tag, and what is left. */
  function Sections(s: string, done: seq<Section>): Outcome<(seq<Section>, string)>
    decreases |s|
  {
    match Ignorable(s)
    case Bad(problem, left) => Bad(problem, left)
    case Ok(t) =>
      if StartsWith(t, ROOT_END) then Ok((done, t[7..]))
      else if t == "" then Bad(MissingRootEnd, 0)
      else
        match SectionAt(t, done)
        case Bad(problem, left) => Bad(problem, left)
        case Ok((section, rest)) => Sections(rest, done + [section])
  }

  function ContentOf(done: seq<Section>, slot: Slot): Option<string> {
    if done == [] then None
    else if done[|done| - 1].slot == slot then Some(done[|done| - 1].content)
    else ContentOf(done[..|done| - 1], slot)
  }

  /** Everything before the root: blanks, comments, a declaration and a
      doctype. */
  function Prologue(s: string): Outcome<string> {
    match Ignorable(if s != "" && s[0] == BYTE_ORDER_MARK then s[1..] else s)
    case Bad(problem, left) => Bad(problem, left)
    case Ok(t) =>
      match Declaration(t)
      case Bad(problem, left) => Bad(problem, left)
      case Ok(u) => Doctype(u)
  }

  /** Everything behind the root's closing tag is ignorable, and the main
      script was there. */
  function Finished(version: string, done: seq<Section>, s: string): Outcome<Document> {
    match Ignorable(s)
    case Bad(problem, left) => Bad(problem, left)
    case Ok(t) =>
      if t != "" then Bad(TrailingContent, |t|)
      else
        match ContentOf(done, MainThread)
        case None => Bad(MissingMainScript, 0)
        case Some(main) => Ok(Document(version, ContentOf(done, Style), main, ContentOf(done, BackgroundThread)))
  }

  /** The root element and what is behind it. */
  function Root(s: string): Outcome<Document> {
    match RootStart(s)
    case Bad(problem, left) => Bad(problem, left)
    case Ok((version, t)) =>
      match Sections(t, [])
      case Bad(problem, left) => Bad(problem, left)
      case Ok((done, u)) => Finished(version, done, u)
  }

  function Parsed(s: string): Outcome<Document> {
    match Prologue(s)
    case Bad(problem, left) => Bad(problem, left)
    case Ok(t) => Root(t)
  }

  // ------------------------------------------------------------ the parser

  lemma SkipOne(s: string, i: nat)
    requires i <= |s|
    ensures i < |s| && IsBlank(s[i]) ==> SkipBlank(s[i..]) == SkipBlank(s[i + 1..])
    ensures i == |s| || !IsBlank(s[i]) ==> SkipBlank(s[i..]) == s[i..]
  {
    if i < |s| {
      assert s[i..][1..] == s[i + 1..];
    }
  }

  lemma DropOne(s: string, i: nat, j: nat)
    requires i <= j <= |s|
    ensures i < j && IsBlank(s[j - 1]) ==> DropBlankEnd(s[i..j]) == DropBlankEnd(s[i..j - 1])
    ensures i == j || !IsBlank(s[j - 1]) ==> DropBlankEnd(s[i..j]) == s[i..j]
  {
    if i < j {
      assert s[i..j][..j - i - 1] == s[i..j - 1];
    }
  }

  lemma WholeSlice(s: string, i: nat)
    requires i <= |s|
    ensures s[0..] == s && s[i..] == s[i..|s|]
  {
  }

  /** Trims by moving both ends inwards. */
  method TrimBlank(value: string) returns (r: string)
    ensures r == Trim(value)
  {
    var start, end := 0, |value|;
    WholeSlice(value, 0);
    while start < end && IsBlank(value[start])
      invariant start <= end == |value|
      invariant SkipBlank(value) == SkipBlank(value[start..])
    {
      SkipOne(value, start);
      start := start + 1;
    }
    SkipOne(value, start);
    WholeSlice(value, start);
    while end > start && IsBlank(value[end - 1])
      invariant start <= end <= |value|
      invariant Trim(value) == DropBlankEnd(value[start..end])
    {
      DropOne(value, start, end);
      end := end - 1;
    }
    DropOne(value, start, end);
    r := value[start..end];
  }

  lemma IgnorableUnfolds(s: string)
    ensures var t := SkipBlank(s);
            if !StartsWith(t, COMMENT_START) then Ignorable(s) == Ok(t)
            else
              match Search(t[4..], COMMENT_END)
              case None => Ignorable(s) == Bad(UnterminatedComment, |t|)
              case Some(i) => Ignorable(s) == Ignorable(t[4..][i + 3..])
  {
  }

  lemma SectionAtOk(s: string, done: seq<Section>, slot: Slot, body: string, content: string, rest: string)
    requires SectionStart(s, done) == Ok((slot, body))
    requires SectionBody(body, ClosingTag(slot)) == Ok((content, rest))
    ensures SectionAt(s, done) == Ok((Section(slot, content), rest))
  {
  }

  lemma SectionAtBad(s: string, done: seq<Section>, slot: Slot, body: string, problem: Problem, left: nat)
    requires SectionStart(s, done) == Ok((slot, body))
    requires SectionBody(body, ClosingTag(slot)) == Bad(problem, left)
    ensures SectionAt(s, done) == Bad(problem, left)
  {
  }

  lemma {:induction false} SectionsGoOn(s: string, t: string, done: seq<Section>, section: Section, rest: string)
    requires Ignorable(s) == Ok(t) && !StartsWith(t, ROOT_END) && t != ""
    requires SectionAt(t, done) == Ok((section, rest))
    ensures Sections(s, done) == Sections(rest, done + [section]) && |rest| < |s|
  {
  }

  lemma {:induction false} SectionsBreak(s: string, t: string, done: seq<Section>, problem: Problem, left: nat)
    requires Ignorable(s) == Ok(t) && !StartsWith(t, ROOT_END) && t != ""
    requires SectionAt(t, done) == Bad(problem, left)
    ensures Sections(s, done) == Bad(problem, left)
  {
  }

  lemma SectionsFail(s: string, version: string, t: string, problem: Problem, left: nat)
    requires RootStart(s) == Ok((version, t)) && Sections(t, []) == Bad(problem, left)
    ensures Root(s) == Bad(problem, left)
  {
  }

  lemma SectionsPass(s: string, version: string, t: string, done: seq<Section>, u: string)
    requires RootStart(s) == Ok((version, t)) && Sections(t, []) == Ok((done, u))
    ensures Root(s) == Finished(version, done, u)
  {
  }

  lemma SectionsStop(s: string, done: seq<Section>)
    ensures Ignorable(s).Bad? ==> Sections(s, done) == Bad(Ignorable(s).problem, Ignorable(s).left)
    ensures Ignorable(s).Ok? && StartsWith(Ignorable(s).value, ROOT_END) ==>
              Sections(s, done) == Ok((done, Ignorable(s).value[7..]))
    ensures Ignorable(s) == Ok("") ==> Sections(s, done) == Bad(MissingRootEnd, 0)
  {
  }

  /** What a step left to read, or why it failed. */
  function Leaving(r: Outcome<()>, rest: string): Outcome<string> {
    if r.Ok? then Ok(rest) else Bad(r.problem, r.left)
  }

  /** What a step read, with what it left to read. */
  function Paired<T>(r: Outcome<T>, rest: string): Outcome<(T, string)> {
    if r.Ok? then Ok((r.value, rest)) else Bad(r.problem, r.left)
  }

  /** Reads one document from front to back, filling the section slots as it
      meets them. */
  class Parser {
    const source: string
    var position: nat
    var style: Option<string>
    var mainThreadScript: Option<string>
    var backgroundThreadScript: Option<string>

    ghost predicate Valid()
      reads this
    {
      position <= |source|
    }

    /** What is left to read. */
    ghost function Rest(): string
      reads this
      requires Valid()
    {
      source[position..]
    }

    /** The slots hold exactly the sections read so far. */
    ghost predicate Holds(done: seq<Section>)
      reads this
    {
      && style == ContentOf(done, Style)
      && mainThreadScript == ContentOf(done, MainThread)
      && backgroundThreadScript == ContentOf(done, BackgroundThread)
    }

    constructor (text: string)
      ensures source == text && Valid() && Rest() == text && Holds([])
    {
      source := text;
      position := 0;
      style, mainThreadScript, backgroundThreadScript := None, None, None;
      new;
      assert source[0..] == source;
    }

    method Advance(count: nat)
      requires Valid() && count <= |Rest()|
      modifies this`position
      ensures Valid() && position == old(position) + count && Rest() == old(Rest())[count..]
    {
      position := position + count;
    }

    method SkipWhitespace()
      requires Valid()
      modifies this`position
      ensures Valid() && Rest() == SkipBlank(old(Rest()))
    {
      while position < |source| && IsBlank(source[position])
        invariant Valid() && SkipBlank(Rest()) == SkipBlank(old(Rest()))
      {
        assert source[position..][1..] == source[position + 1..];
        position := position + 1;
      }
    }

    /** Moves past the comment that starts here. */
    method ConsumeComment() returns (r: Outcome<()>)
      requires Valid() && StartsWith(Rest(), COMMENT_START)
      modifies this`position
      ensures Valid()
      ensures match Search(old(Rest())[4..], COMMENT_END)
              case None => r == Bad(UnterminatedComment, |old(Rest())|)
              case Some(i) => r == Ok(()) && Rest() == old(Rest())[4..][i + 3..]
    {
      var left := |source| - position;
      Advance(4);
      match Search(source[position..], COMMENT_END)
      case None =>
        return Bad(UnterminatedComment, left);
      case Some(i) =>
        Advance(i + 3);
        return Ok(());
    }

    /** Moves past blanks and comments. */
    method ConsumeIgnorable() returns (r: Outcome<()>)
      requires Valid()
      modifies this`position
      ensures Valid()
      ensures Ignorable(old(Rest())) == Leaving(r, Rest())
    {
      ghost var s := Rest();
      while true
        invariant Valid() && |Rest()| <= |s|
        invariant Ignorable(Rest()) == Ignorable(s)
        decreases |Rest()|
      {
        IgnorableUnfolds(Rest());
        SkipWhitespace();
        if !StartsWith(source[position..], COMMENT_START) {
          return Ok(());
        }
        var comment := ConsumeComment();
        if comment.Bad? {
          return comment;
        }
      }
    }

    method ConsumeDeclaration() returns (r: Outcome<()>)
      requires Valid()
      modifies this`position
      ensures Valid()
      ensures Declaration(old(Rest())) == Leaving(r, Rest())
    {
      ghost var s := Rest();
      if !StartsWith(source[position..], DECLARATION_START) {
        return Ok(());
      }
      var start := position;
      Advance(5);
      match Search(source[position..], DECLARATION_END)
      case None =>
        return Bad(UnterminatedDeclaration, |source| - start);
      case Some(i) =>
        Advance(i + 2);
        assert Declaration(s) == Ignorable(Rest());
        r := ConsumeIgnorable();
    }

    method ConsumeDoctype() returns (r: Outcome<()>)
      requires Valid()
      modifies this`position
      ensures Valid()
      ensures Doctype(old(Rest())) == Leaving(r, Rest())
    {
      if !StartsWith(source[position..], "<!") {
        return Ok(());
      }
      var start := position;
      Advance(2);
      match Search(source[position..], TAG_END)
      case None =>
        return Bad(UnterminatedDoctype, |source| - start);
      case Some(i) =>
        var declaration := TrimBlank(source[position..][..i]);
        var keywordEnd := FirstBlank(declaration);
        if keywordEnd == |declaration| {
          return Bad(ExpectedDoctype, |source| - start);
        }
        var name := TrimBlank(declaration[keywordEnd..]);
        if !EqualIgnoringCase(declaration[..keywordEnd], "doctype") || !EqualIgnoringCase(name, "lynx") {
          return Bad(ExpectedDoctype, |source| - start);
        }
        Advance(i + 1);
        r := ConsumeIgnorable();
    }

    method ConsumeRootStart() returns (r: Outcome<string>)
      requires Valid()
      modifies this`position
      ensures Valid()
      ensures RootStart(old(Rest())) == Paired(r, Rest())
    {
      var start := position;
      if !OpensRoot(source[position..]) {
        return Bad(ExpectedRoot, |source| - start);
      }
      Advance(1);
      match Search(source[position..], TAG_END)
      case None =>
        return Bad(UnterminatedRoot, |source| - start);
      case Some(i) =>
        var tag := TrimBlank(source[position..][..i]);
        var nameEnd := FirstBlank(tag);
        var attributes := TrimBlank(tag[nameEnd..]);
        match QuotedAttribute(attributes, "engine-version")
        case None =>
          return Bad(RootNeedsVersion, |source| - start);
        case Some(version) =>
          if version == "" {
            return Bad(RootNeedsVersion, |source| - start);
          }
          Advance(i + 1);
          return Ok(version);
    }

    function SlotValue(slot: Slot): Option<string>
      reads this
    {
      match slot
      case Style => style
      case MainThread => mainThreadScript
      case BackgroundThread => backgroundThreadScript
    }

    method AssignSlot(slot: Slot, content: string, ghost done: seq<Section>)
      requires Holds(done)
      modifies this`style, this`mainThreadScript, this`backgroundThreadScript
      ensures Holds(done + [Section(slot, content)])
    {
      ContentOfSnoc(done, Section(slot, content));
      match slot
      case Style => style := Some(content);
      case MainThread => mainThreadScript := Some(content);
      case BackgroundThread => backgroundThreadScript := Some(content);
    }

    /** A tag's section, checked against the slots filled. */
    method ClassifyTag(tag: string, left: nat, ghost done: seq<Section>) returns (r: Outcome<Slot>)
      requires Holds(done)
      ensures r == TagSlot(tag, done, left)
    {
      if tag == "" || tag[0] == '/' {
        return Bad(UnexpectedClosingTag, left);
      }
      var nameEnd := FirstBlank(tag);
      var attributes := TrimBlank(tag[nameEnd..]);
      r := Classified(tag[..nameEnd], attributes, left);
      if r.Ok? {
        ContentOfWhenHas(done, r.value);
        if SlotValue(r.value).Some? {
          return Bad(DuplicateSection(tag), left);
        }
      }
    }

    /** A section's tag, from behind its `<`. */
    method ConsumeTag(left: nat, ghost done: seq<Section>) returns (r: Outcome<Slot>)
      requires Valid() && Holds(done)
      modifies this`position
      ensures Valid()
      ensures TagAt(old(Rest()), done, left) == Paired(r, Rest())
    {
      match Search(source[position..], TAG_END)
      case None =>
        return Bad(UnterminatedTag, left);
      case Some(i) =>
        var tag := TrimBlank(source[position..][..i]);
        r := ClassifyTag(tag, left, done);
        if r.Ok? {
          Advance(i + 1);
        }
    }

    /** The opening tag of a section. */
    method ConsumeSectionStart(ghost done: seq<Section>) returns (r: Outcome<Slot>)
      requires Valid() && Holds(done)
      modifies this`position
      ensures Valid()
      ensures SectionStart(old(Rest()), done) == Paired(r, Rest())
    {
      var left := |source| - position;
      if position == |source| || source[position] != '<' {
        return Bad(ContentOutsideSection, left);
      }
      Advance(1);
      r := ConsumeTag(left, done);
    }

    /** Moves past a leading CDATA section. */
    method SkipCdata() returns (r: Outcome<()>)
      requires Valid()
      modifies this`position
      ensures Valid() && position >= old(position)
      ensures BodySearchStart(old(Rest())) == Leaving(r, Rest())
    {
      SkipWhitespace();
      if !StartsWith(source[position..], CDATA_START) {
        return Ok(());
      }
      var start := position;
      Advance(9);
      match Search(source[position..], CDATA_END)
      case None =>
        return Bad(UnterminatedCdata, |source| - start);
      case Some(i) =>
        Advance(i + 3);
        return Ok(());
    }

    /** Looks for the closing tag from behind a leading CDATA section. */
    method ConsumeSectionBody(closing: string) returns (r: Outcome<string>)
      requires Valid() && closing != ""
      modifies this`position
      ensures Valid()
      ensures SectionBody(old(Rest()), closing) == Paired(r, Rest())
    {
      ghost var s := Rest();
      var contentStart := position;
      var skipped := SkipCdata();
      if skipped.Bad? {
        return Bad(skipped.problem, skipped.left);
      }
      ghost var from := Rest();
      assert BodySearchStart(s) == Ok(from);
      match Search(source[position..], closing)
      case None =>
        return Bad(MissingClosingTag(closing), |source| - contentStart);
      case Some(i) =>
        var text := source[contentStart..position + i];
        assert text == s[..|s| - |from| + i];
        var content := Content(text, |source| - contentStart);
        if content.Bad? {
          return Bad(content.problem, content.left);
        }
        Advance(i + |closing|);
        return Ok(content.value);
    }

    method ReadSection(ghost done: seq<Section>) returns (r: Outcome<Section>)
      requires Valid() && Holds(done)
      modifies this`position
      ensures Valid() && Holds(done)
      ensures SectionAt(old(Rest()), done) == Paired(r, Rest())
    {
      ghost var s := Rest();
      var start := ConsumeSectionStart(done);
      if start.Bad? {
        return Bad(start.problem, start.left);
      }
      ghost var body := Rest();
      var content := ConsumeSectionBody(ClosingTag(start.value));
      if content.Bad? {
        SectionAtBad(s, done, start.value, body, content.problem, content.left);
        return Bad(content.problem, content.left);
      }
      SectionAtOk(s, done, start.value, body, content.value, Rest());
      return Ok(Section(start.value, content.value));
    }

    method ConsumeSection(ghost done: seq<Section>) returns (r: Outcome<()>, ghost section: Section)
      requires Valid() && Holds(done)
      modifies this
      ensures Valid()
      ensures r.Ok? ==> SectionAt(old(Rest()), done) == Ok((section, Rest())) && Holds(done + [section])
      ensures r.Bad? ==> SectionAt(old(Rest()), done) == Bad(r.problem, r.left)
    {
      section := Section(Style, "");
      var read := ReadSection(done);
      if read.Bad? {
        return Bad(read.problem, read.left), section;
      }
      section := read.value;
      AssignSlot(read.value.slot, read.value.content, done);
      return Ok(()), section;
    }

    /** One turn of the loop: another section, or the root's closing tag. */
    method ConsumeNext(ghost done: seq<Section>) returns (r: Outcome<bool>, ghost section: Section)
      requires Valid() && Holds(done)
      modifies this
      ensures Valid()
      ensures r.Bad? ==> Sections(old(Rest()), done) == Bad(r.problem, r.left)
      ensures r == Ok(false) ==> Sections(old(Rest()), done) == Ok((done, Rest())) && Holds(done)
      ensures r == Ok(true) ==>
                && Sections(old(Rest()), done) == Sections(Rest(), done + [section])
                && |Rest()| < |old(Rest())| && Holds(done + [section])
    {
      section := Section(Style, "");
      ghost var before := Rest();
      SectionsStop(before, done);
      var ignored := ConsumeIgnorable();
      if ignored.Bad? {
        return Bad(ignored.problem, ignored.left), section;
      }
      if StartsWith(source[position..], ROOT_END) {
        Advance(7);
        return Ok(false), section;
      }
      if position == |source| {
        return Bad(MissingRootEnd, |source| - position), section;
      }
      ghost var t := Rest();
      var consumed;
      consumed, section := ConsumeSection(done);
      if consumed.Bad? {
        SectionsBreak(before, t, done, consumed.problem, consumed.left);
        return Bad(consumed.problem, consumed.left), section;
      }
      SectionsGoOn(before, t, done, section, Rest());
      return Ok(true), section;
    }

    /** Every section up to the root's closing tag. */
    method ConsumeSections() returns (r: Outcome<()>, ghost done: seq<Section>)
      requires Valid() && Holds([])
      modifies this
      ensures Valid()
      ensures r.Ok? ==> Sections(old(Rest()), []) == Ok((done, Rest())) && Holds(done)
      ensures r.Bad? ==> Sections(old(Rest()), []) == Bad(r.problem, r.left)
    {
      done := [];
      ghost var s := Rest();
      while true
        invariant Valid() && Holds(done)
        invariant Sections(Rest(), done) == Sections(s, [])
        decreases |Rest()|
      {
        ghost var section;
        var next;
        next, section := ConsumeNext(done);
        if next.Bad? {
          return Bad(next.problem, next.left), done;
        }
        if !next.value {
          return Ok(()), done;
        }
        done := done + [section];
      }
    }

    /** Everything before the root element. */
    method ConsumePrologue() returns (r: Outcome<()>)
      requires Valid()
      modifies this`position
      ensures Valid()
      ensures Prologue(old(Rest())) == Leaving(r, Rest())
    {
      if position < |source| && source[position] == BYTE_ORDER_MARK {
        Advance(1);
      }
      r := ConsumeIgnorable();
      if r.Bad? {
        return;
      }
      r := ConsumeDeclaration();
      if r.Bad? {
        return;
      }
      r := ConsumeDoctype();
    }

    /** Everything behind the root element, and the document. */
    method Finish(version: string, ghost done: seq<Section>) returns (r: Outcome<Document>)
      requires Valid() && Holds(done)
      modifies this`position
      ensures r == Finished(version, done, old(Rest()))
    {
      var step := ConsumeIgnorable();
      if step.Bad? {
        return Bad(step.problem, step.left);
      }
      if position != |source| {
        return Bad(TrailingContent, |source| - position);
      }
      if mainThreadScript.None? {
        return Bad(MissingMainScript, |source| - position);
      }
      return Ok(Document(version, style, mainThreadScript.value, backgroundThreadScript));
    }

    method ConsumeRoot() returns (r: Outcome<Document>)
      requires Valid() && Holds([])
      modifies this
      ensures r == Root(old(Rest()))
    {
      ghost var s := Rest();
      var version := ConsumeRootStart();
      if version.Bad? {
        return Bad(version.problem, version.left);
      }
      ghost var t := Rest();
      var step;
      ghost var done;
      step, done := ConsumeSections();
      if step.Bad? {
        SectionsFail(s, version.value, t, step.problem, step.left);
        return Bad(step.problem, step.left);
      }
      SectionsPass(s, version.value, t, done, Rest());
      r := Finish(version.value, done);
    }

    method Parse() returns (r: Outcome<Document>)
      requires Valid() && position == 0 && Holds([])
      modifies this
      ensures r == Parsed(source)
    {
      assert Rest() == source;
      var step := ConsumePrologue();
      if step.Bad? {
        return Bad(step.problem, step.left);
      }
      r := ConsumeRoot();
    }
  }

  lemma ContentOfSnoc(done: seq<Section>, section: Section)
    ensures forall slot :: ContentOf(done + [section], slot) ==
              if section.slot == slot then Some(section.content) else ContentOf(done, slot)
  {
    assert (done + [section])[..|done|] == done;
  }

  lemma {:induction false} ContentOfWhenHas(done: seq<Section>, slot: Slot)
    ensures Has(done, slot) <==> ContentOf(done, slot).Some?
    decreases |done|
  {
    if done == [] {
    } else {
      var init := done[..|done| - 1];
      ContentOfWhenHas(init, slot);
      if Has(init, slot) {
        var i :| 0 <= i < |init| && init[i].slot == slot;
        assert done[i].slot == slot;
      }
      assert done[|done| - 1].slot == slot ==> Has(done, slot);
      forall i | 0 <= i < |init| && done[i].slot == slot ensures Has(init, slot) {
        assert init[i].slot == slot;
      }
    }
  }
}
