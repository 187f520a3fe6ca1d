/** Media types: the parser of `Content-Type` values and the text a parsed
    media type prints as. Text is a sequence of Unicode scalar values, and
    positions count them. */
module Mime {
  import opened Options

  datatype Parameter = Parameter(name: string, value: string)

  datatype MediaType = MediaType(essence: string, slash: nat, parameters: seq<Parameter>)

  // ------------------------------------------------------------ characters

  predicate IsWhitespace(c: char) {
    c == ' ' || c == '\t' || c == '\n' || c == '\r'
  }

  predicate IsTokenChar(c: char) {
    'a' <= c <= 'z' || 'A' <= c <= 'Z' || '0' <= c <= '9' || c in {'!', '#', '$', '%', '&', '\'', '*', '+', '-', '.', '^', '_', '`', '|', '~'}
  }

  predicate IsToken(s: string) {
    s != "" && forall i :: 0 <= i < |s| ==> IsTokenChar(s[i])
  }

  predicate IsQuotableChar(c: char) {
    c == '\t' || ' ' <= c <= '~' || c as int >= 0x80
  }

  predicate IsQuotable(s: string) {
    forall i :: 0 <= i < |s| ==> IsQuotableChar(s[i])
  }

  function LowerChar(c: char): char {
    if 'A' <= c <= 'Z' then (c as int + 32) as char else c
  }

  function Lower(s: string): (r: string)
    ensures |r| == |s| && forall i :: 0 <= i < |s| ==> r[i] == LowerChar(s[i])
  {
    if s == "" then "" else [LowerChar(s[0])] + Lower(s[1..])
  }

  /** Where the first of `stops` stands in `s`, or the length of `s`. */
  function Find(s: string, stops: set<char>): (i: nat)
    ensures i <= |s|
    ensures i < |s| ==> s[i] in stops
    ensures forall j :: 0 <= j < i ==> s[j] !in stops
  {
    if s == "" || s[0] in stops then 0 else 1 + Find(s[1..], stops)
  }

  function TrimStart(s: string): string {
    if s != "" && IsWhitespace(s[0]) then TrimStart(s[1..]) else s
  }

  function TrimEnd(s: string): string {
    if s != "" && IsWhitespace(s[|s| - 1]) then TrimEnd(s[..|s| - 1]) else s
  }

  function Trim(s: string): string {
    TrimEnd(TrimStart(s))
  }

  // --------------------------------------------------------- the parser

  /** The body of a quoted string, its opening quote already read: the
      unescaped value, and how much was read. An escape that ends the input
      is dropped, and a missing closing quote takes everything. */
  function Unquoted(s: string): (r: (string, nat))
    ensures r.1 <= |s|
  {
    if s == "" then ("", 0)
    else if s[0] == '"' then ("", 1)
    else if s[0] != '\\' then var (value, used) := Unquoted(s[1..]); ([s[0]] + value, used + 1)
    else if |s| == 1 then ("", 1)
    else var (value, used) := Unquoted(s[2..]); ([s[1]] + value, used + 2)
  }

  /** What follows the first `;`, if there is one. */
  function AfterSemicolon(s: string): string {
    var i := Find(s, {';'});
    if i < |s| then s[i + 1..] else ""
  }

  /** The text of a value that starts after `=`, and what is left behind it. */
  function ReadValue(s: string): (string, string) {
    if s != "" && s[0] == '"' then
      var (value, used) := Unquoted(s[1..]);
      (value, AfterSemicolon(s[1..][used..]))
    else
      (TrimEnd(s[..Find(s, {';'})]), AfterSemicolon(s))
  }

  predicate IsParameter(p: Parameter) {
    IsToken(p.name) && p.value != "" && IsQuotable(p.value)
  }

  /** The next stretch of parameter text: a parameter, when it is well
      formed, and what is left. */
  function ReadParameter(rest: string): (Option<Parameter>, string) {
    var text := TrimStart(rest);
    var nameEnd := Find(text, {';', '='});
    if nameEnd == |text| then (None, "")
    else if text[nameEnd] == ';' then (None, text[nameEnd + 1..])
    else
      var (value, left) := ReadValue(text[nameEnd + 1..]);
      var p := Parameter(Lower(text[..nameEnd]), value);
      (if IsParameter(p) then Some(p) else None, left)
  }

  lemma TrimStartShortens(s: string)
    ensures |TrimStart(s)| <= |s|
  {
  }

  lemma ReadParameterAdvances(rest: string)
    requires rest != ""
    ensures |ReadParameter(rest).1| < |rest|
  {
    TrimStartShortens(rest);
  }

  /** Every well-formed parameter in `rest`, in order. */
  function Parameters(rest: string): seq<Parameter>
    decreases |rest|
  {
    if rest == "" then []
    else
      ReadParameterAdvances(rest);
      var (found, left) := ReadParameter(rest);
      (if found.Some? then [found.value] else []) + Parameters(left)
  }

  lemma ParametersStep(rest: string)
    requires rest != ""
    ensures var (found, left) := ReadParameter(rest);
            Parameters(rest) == if found.Some? then [found.value] + Parameters(left) else Parameters(left)
  {
    ReadParameterAdvances(rest);
  }

  predicate Names(parameters: seq<Parameter>, name: string) {
    exists i :: 0 <= i < |parameters| && parameters[i].name == name
  }

  /** Keeps the first parameter of each name. */
  function Deduplicated(parameters: seq<Parameter>): seq<Parameter> {
    if parameters == [] then []
    else
      var kept, last := Deduplicated(parameters[..|parameters| - 1]), parameters[|parameters| - 1];
      if Names(kept, last.name) then kept else kept + [last]
  }

  function Parsed(value: string): Option<MediaType> {
    var text := Trim(value);
    var semicolon := Find(text, {';'});
    var essence := Trim(text[..semicolon]);
    var slash := Find(essence, {'/'});
    if slash == |essence| || !IsToken(essence[..slash]) || !IsToken(essence[slash + 1..]) then None
    else Some(MediaType(Lower(essence), slash, Deduplicated(Parameters(AfterSemicolon(text)))))
  }

  // --------------------------------------------------------- the printer

  function Escaped(value: string): string {
    if value == "" then ""
    else (if value[0] == '"' || value[0] == '\\' then ['\\', value[0]] else [value[0]]) + Escaped(value[1..])
  }

  function ValueText(value: string): string {
    if IsToken(value) then value else "\"" + Escaped(value) + "\""
  }

  /** A parameter's text, without the `;` before it. */
  function ParameterText(p: Parameter): string {
    " " + p.name + "=" + ValueText(p.value)
  }

  function ParametersText(parameters: seq<Parameter>): string {
    if parameters == [] then "" else ";" + ParameterText(parameters[0]) + ParametersText(parameters[1..])
  }

  function Displayed(m: MediaType): string {
    m.essence + ParametersText(m.parameters)
  }

  // ------------------------------------------------------------ the code

  /** Reads a quoted string's body, one character at a time. */
  method CollectQuoted(input: string) returns (value: string, consumed: nat)
    ensures (value, consumed) == Unquoted(input)
  {
    value := "";
    var at := 0;
    assert input[0..] == input;
    while at < |input|
      invariant at <= |input|
      invariant value + Unquoted(input[at..]).0 == Unquoted(input).0
      invariant at + Unquoted(input[at..]).1 == Unquoted(input).1
    {
      var character := input[at];
      ghost var left, before := input[at..], value;
      if character == '\\' {
        if at + 1 == |input| {
          assert Unquoted(left) == ("", 1) && value + "" == value;
          return value, |input|;
        }
        assert left[2..] == input[at + 2..];
        value := value + [input[at + 1]];
        at := at + 2;
        assert value + Unquoted(input[at..]).0 == before + Unquoted(left).0;
      } else if character == '"' {
        assert Unquoted(left) == ("", 1) && value + "" == value;
        return value, at + 1;
      } else {
        assert left[1..] == input[at + 1..];
        value := value + [character];
        at := at + 1;
        assert value + Unquoted(input[at..]).0 == before + Unquoted(left).0;
      }
    }
    assert input[at..] == "" && value + "" == value;
    consumed := |input|;
  }

  /** Walks the `;`-separated parameters of a value. */
  class ParameterIter {
    var rest: string

    constructor (text: string)
      ensures rest == text
    {
      rest := text;
    }

    /** The next well-formed parameter; the ones before it are skipped. */
    method Next() returns (found: Option<Parameter>)
      modifies this
      ensures found.None? ==> Parameters(old(rest)) == [] && rest == ""
      ensures found.Some? ==> Parameters(old(rest)) == [found.value] + Parameters(rest) && |rest| < |old(rest)|
    {
      while true
        invariant Parameters(rest) == Parameters(old(rest)) && |rest| <= |old(rest)|
        decreases |rest|
      {
        if rest == "" {
          return None;
        }
        ReadParameterAdvances(rest);
        ParametersStep(rest);
        var text := TrimStart(rest);
        var nameEnd := Find(text, {';', '='});
        var name := Lower(text[..nameEnd]);
        var afterName := text[nameEnd..];
        if afterName == "" || afterName[0] != '=' {
          rest := if afterName != "" then afterName[1..] else "";
          continue;
        }
        var afterEquals := afterName[1..];
        assert afterEquals == text[nameEnd + 1..];
        var value, remainder := NextValue(afterEquals);
        rest := remainder;
        if !IsToken(name) || value == "" || !IsQuotable(value) {
          continue;
        }
        return Some(Parameter(name, value));
      }
    }

    /** A parameter's value, quoted or up to the next semicolon. */
    method NextValue(afterEquals: string) returns (value: string, remainder: string)
      ensures (value, remainder) == ReadValue(afterEquals)
    {
      if afterEquals != "" && afterEquals[0] == '"' {
        var quoted, consumed := afterEquals[1..], 0;
        value, consumed := CollectQuoted(quoted);
        remainder := AfterSemicolon(quoted[consumed..]);
      } else {
        var end := Find(afterEquals, {';'});
        value := TrimEnd(afterEquals[..end]);
        remainder := if end < |afterEquals| then afterEquals[end + 1..] else "";
      }
    }
  }

  method HasName(parameters: seq<Parameter>, name: string) returns (found: bool)
    ensures found == Names(parameters, name)
  {
    for i := 0 to |parameters|
      invariant forall j :: 0 <= j < i ==> parameters[j].name != name
    {
      if parameters[i].name == name {
        return true;
      }
    }
    return false;
  }

  lemma DeduplicatedSnoc(parameters: seq<Parameter>, p: Parameter)
    ensures Deduplicated(parameters + [p]) ==
            if Names(Deduplicated(parameters), p.name) then Deduplicated(parameters) else Deduplicated(parameters) + [p]
  {
    assert (parameters + [p])[..|parameters|] == parameters;
  }

  lemma Regroup<T>(a: seq<T>, b: seq<T>, c: seq<T>)
    ensures a + (b + c) == a + b + c
  {
  }

  /** Every parameter in `text`, the first of each name. */
  method Collect(text: string) returns (parameters: seq<Parameter>)
    ensures parameters == Deduplicated(Parameters(text))
  {
    parameters := [];
    var iter := new ParameterIter(text);
    ghost var seen: seq<Parameter> := [];
    while true
      invariant Parameters(text) == seen + Parameters(iter.rest)
      invariant parameters == Deduplicated(seen)
      decreases |iter.rest|
    {
      var next := iter.Next();
      if next.None? {
        assert seen == Parameters(text);
        return;
      }
      var known := HasName(parameters, next.value.name);
      DeduplicatedSnoc(seen, next.value);
      if !known {
        parameters := parameters + [next.value];
      }
      Regroup(seen, [next.value], Parameters(iter.rest));
      seen := seen + [next.value];
    }
  }

  method Parse(value: string) returns (r: Option<MediaType>)
    ensures r == Parsed(value)
  {
    var text := Trim(value);
    var semicolon := Find(text, {';'});
    var essence := Trim(text[..semicolon]);
    var slash := Find(essence, {'/'});
    if slash == |essence| {
      return None;
    }
    if !IsToken(essence[..slash]) || !IsToken(essence[slash + 1..]) {
      return None;
    }
    var parameters := Collect(if semicolon < |text| then text[semicolon + 1..] else "");
    return Some(MediaType(Lower(essence), slash, parameters));
  }

  method DisplayValue(value: string) returns (text: string)
    ensures text == ValueText(value)
  {
    if IsToken(value) {
      return value;
    }
    text := "\"";
    for i := 0 to |value|
      invariant text + Escaped(value[i..]) == "\"" + Escaped(value)
    {
      ghost var before := text;
      assert value[i..][1..] == value[i + 1..];
      if value[i] == '"' || value[i] == '\\' {
        text := text + "\\";
      }
      text := text + [value[i]];
      assert text + Escaped(value[i + 1..]) == before + Escaped(value[i..]);
    }
    text := text + "\"";
  }

  method DisplayParameter(p: Parameter) returns (text: string)
    ensures text == ";" + ParameterText(p)
  {
    var value := DisplayValue(p.value);
    text := "; " + p.name + "=" + value;
  }

  method Display(m: MediaType) returns (text: string)
    ensures text == Displayed(m)
  {
    text := m.essence;
    for i := 0 to |m.parameters|
      invariant text + ParametersText(m.parameters[i..]) == Displayed(m)
    {
      var parameter := DisplayParameter(m.parameters[i]);
      assert m.parameters[i..][1..] == m.parameters[i + 1..];
      Regroup(text, parameter, ParametersText(m.parameters[i + 1..]));
      text := text + parameter;
    }
  }

  // --------------------------------------------------- well-formed types

  ghost predicate Distinct(parameters: seq<Parameter>) {
    forall i, j :: 0 <= i < j < |parameters| ==> parameters[i].name != parameters[j].name
  }

  predicate WellFormedParameter(p: Parameter) {
    IsParameter(p) && Lower(p.name) == p.name
  }

  /** What a parsed media type always is: a lowercase `type/subtype`, and
      parameters with distinct lowercase names and values that can be quoted. */
  ghost predicate WellFormed(m: MediaType) {
    && m.slash < |m.essence| && m.essence[m.slash] == '/'
    && IsToken(m.essence[..m.slash]) && IsToken(m.essence[m.slash + 1..])
    && Lower(m.essence) == m.essence
    && Distinct(m.parameters)
    && forall i :: 0 <= i < |m.parameters| ==> WellFormedParameter(m.parameters[i])
  }

  lemma LowerTwice(s: string)
    ensures Lower(Lower(s)) == Lower(s)
    ensures IsToken(s) ==> IsToken(Lower(s))
  {
    assert forall i :: 0 <= i < |s| && IsTokenChar(s[i]) ==> IsTokenChar(LowerChar(s[i]));
  }

  lemma {:induction false} ParametersAreWellFormed(rest: string)
    ensures forall i :: 0 <= i < |Parameters(rest)| ==> WellFormedParameter(Parameters(rest)[i])
    decreases |rest|
  {
    if rest == "" {
    } else {
      ReadParameterAdvances(rest);
      var text := TrimStart(rest);
      LowerTwice(text[..Find(text, {';', '='})]);
      ParametersAreWellFormed(ReadParameter(rest).1);
    }
  }

  lemma {:induction false} DeduplicatedIsDistinct(parameters: seq<Parameter>)
    ensures Distinct(Deduplicated(parameters))
    ensures forall i :: 0 <= i < |Deduplicated(parameters)| ==> Deduplicated(parameters)[i] in parameters
    decreases |parameters|
  {
    if parameters == [] {
    } else {
      DeduplicatedIsDistinct(parameters[..|parameters| - 1]);
    }
  }

  /** The value of the first parameter called `name`. */
  function FirstValue(parameters: seq<Parameter>, name: string): Option<string> {
    if parameters == [] then None
    else
      var earlier, last := FirstValue(parameters[..|parameters| - 1], name), parameters[|parameters| - 1];
      if earlier.Some? then earlier else if last.name == name then Some(last.value) else None
  }

  lemma FirstValueSnoc(parameters: seq<Parameter>, p: Parameter, name: string)
    ensures FirstValue(parameters + [p], name) ==
            if FirstValue(parameters, name).Some? then FirstValue(parameters, name)
            else if p.name == name then Some(p.value) else None
  {
    assert (parameters + [p])[..|parameters|] == parameters;
  }

  lemma {:induction false} NamedWhenValued(parameters: seq<Parameter>, name: string)
    ensures Names(parameters, name) <==> FirstValue(parameters, name).Some?
    decreases |parameters|
  {
    if parameters == [] {
    } else {
      var init := parameters[..|parameters| - 1];
      NamedWhenValued(init, name);
      assert Names(init, name) ==> Names(parameters, name) by {
        if Names(init, name) {
          var i :| 0 <= i < |init| && init[i].name == name;
          assert parameters[i].name == name;
        }
      }
      assert parameters[|parameters| - 1].name == name ==> Names(parameters, name);
      forall i | 0 <= i < |parameters| && parameters[i].name == name && i < |init| ensures Names(init, name) {
        assert init[i].name == name;
      }
    }
  }

  /** Of two parameters of one name the first counts, and no name is lost. */
  lemma {:induction false} FirstOfEachNameIsKept(parameters: seq<Parameter>, name: string)
    ensures FirstValue(Deduplicated(parameters), name) == FirstValue(parameters, name)
    decreases |parameters|
  {
    if parameters == [] {
    } else {
      var init, last := parameters[..|parameters| - 1], parameters[|parameters| - 1];
      FirstOfEachNameIsKept(init, name);
      NamedWhenValued(Deduplicated(init), last.name);
      FirstValueSnoc(Deduplicated(init), last, name);
    }
  }

  lemma {:induction false} DistinctIsKept(parameters: seq<Parameter>)
    requires Distinct(parameters)
    ensures Deduplicated(parameters) == parameters
    decreases |parameters|
  {
    if parameters == [] {
    } else {
      var init := parameters[..|parameters| - 1];
      DistinctIsKept(init);
      assert init + [parameters[|parameters| - 1]] == parameters;
    }
  }

  lemma {:induction false} LowerSlice(s: string, i: nat, j: nat)
    requires i <= j <= |s|
    ensures Lower(s)[i..j] == Lower(s[i..j])
  {
    forall k | 0 <= k < j - i ensures Lower(s)[i..j][k] == Lower(s[i..j])[k] {
      assert s[i..j][k] == s[i + k];
    }
  }

  lemma LowerAround(essence: string, slash: nat)
    requires slash < |essence| && essence[slash] == '/'
    requires IsToken(essence[..slash]) && IsToken(essence[slash + 1..])
    ensures Lower(essence)[slash] == '/'
    ensures IsToken(Lower(essence)[..slash]) && IsToken(Lower(essence)[slash + 1..])
  {
    LowerTwice(essence[..slash]);
    LowerTwice(essence[slash + 1..]);
    LowerSlice(essence, 0, slash);
    LowerSlice(essence, slash + 1, |essence|);
  }

  lemma ParsedIsWellFormed(value: string)
    requires Parsed(value).Some?
    ensures WellFormed(Parsed(value).value)
  {
    var text := Trim(value);
    var essence := Trim(text[..Find(text, {';'})]);
    LowerTwice(essence);
    LowerAround(essence, Find(essence, {'/'}));
    ParametersAreWellFormed(AfterSemicolon(text));
    DeduplicatedIsDistinct(Parameters(AfterSemicolon(text)));
  }

  // ------------------------------------------------------- the round trip

  lemma {:induction false} FindIs(s: string, stops: set<char>, i: nat)
    requires i <= |s| && (i < |s| ==> s[i] in stops)
    requires forall j :: 0 <= j < i ==> s[j] !in stops
    ensures Find(s, stops) == i
    decreases i
  {
    if i == 0 {
    } else {
      FindIs(s[1..], stops, i - 1);
    }
  }

  lemma TrimStartIs(s: string)
    requires s != "" ==> !IsWhitespace(s[0])
    ensures TrimStart(s) == s && TrimStart([' '] + s) == s
  {
    assert ([' '] + s)[1..] == s;
  }

  lemma TrimEndIs(s: string)
    requires s != "" ==> !IsWhitespace(s[|s| - 1])
    ensures TrimEnd(s) == s
  {
  }

  /** A quoted value reads back, whatever follows its closing quote. */
  lemma {:induction false} EscapedReadsBack(value: string, tail: string)
    ensures Unquoted(Escaped(value) + "\"" + tail) == (value, |Escaped(value)| + 1)
    decreases |value|
  {
    var text := Escaped(value) + "\"" + tail;
    if value == "" {
      assert text[0] == '"';
    } else {
      assert value == [value[0]] + value[1..];
      var rest := Escaped(value[1..]) + "\"" + tail;
      EscapedReadsBack(value[1..], tail);
      if value[0] == '"' || value[0] == '\\' {
        assert text == ['\\', value[0]] + rest;
        assert text[0] == '\\' && text[1] == value[0] && text[2..] == rest;
      } else {
        assert text == [value[0]] + rest;
        assert text[0] == value[0] && text[1..] == rest;
      }
    }
  }

  /** What may stand behind a parameter: nothing, or another one. */
  predicate Follows(tail: string) {
    tail == "" || tail[0] == ';'
  }

  lemma AfterSemicolonOf(tail: string)
    requires Follows(tail)
    ensures AfterSemicolon(tail) == if tail == "" then "" else tail[1..]
  {
    FindIs(tail, {';'}, 0);
  }

  lemma TokenReadsBack(value: string, tail: string)
    requires IsToken(value) && Follows(tail)
    ensures ReadValue(value + tail) == (value, AfterSemicolon(tail))
  {
    var text := value + tail;
    forall j | 0 <= j < |value| ensures text[j] !in {';'} {
      assert IsTokenChar(value[j]);
    }
    FindIs(text, {';'}, |value|);
    AfterSemicolonOf(tail);
    assert text[..|value|] == value;
    assert IsTokenChar(value[0]) && IsTokenChar(value[|value| - 1]);
    TrimEndIs(value);
    assert tail != "" ==> text[|value| + 1..] == tail[1..];
  }

  lemma QuotedReadsBack(value: string, tail: string)
    ensures ReadValue("\"" + (Escaped(value) + "\"" + tail)) == (value, AfterSemicolon(tail))
  {
    var body := Escaped(value) + "\"" + tail;
    EscapedReadsBack(value, tail);
    assert ("\"" + body)[1..] == body;
    assert body[|Escaped(value)| + 1..] == tail;
  }

  lemma QuotedLayout(value: string, tail: string)
    requires !IsToken(value)
    ensures ValueText(value) + tail == "\"" + (Escaped(value) + "\"" + tail)
  {
  }

  lemma ValueReadsBack(value: string, tail: string)
    requires value != "" && Follows(tail)
    ensures ReadValue(ValueText(value) + tail) == (value, AfterSemicolon(tail))
  {
    if IsToken(value) {
      TokenReadsBack(value, tail);
    } else {
      QuotedLayout(value, tail);
      QuotedReadsBack(value, tail);
    }
  }

  lemma Around(before: string, c: char, after: string)
    ensures (before + [c] + after)[..|before|] == before
    ensures (before + [c] + after)[|before|] == c
    ensures (before + [c] + after)[|before| + 1..] == after
    ensures before != "" ==> (before + [c] + after)[0] == before[0]
  {
  }

  lemma NameEnds(name: string, text: string)
    requires IsToken(name) && |text| > |name| && text[..|name|] == name && text[|name|] == '='
    ensures Find(text, {';', '='}) == |name|
  {
    forall j | 0 <= j < |name| ensures text[j] !in {';', '='} {
      assert text[j] == name[j] && IsTokenChar(name[j]);
    }
    FindIs(text, {';', '='}, |name|);
  }

  lemma ParameterTextLayout(p: Parameter, tail: string)
    ensures ParameterText(p) + tail == [' '] + (p.name + ['='] + (ValueText(p.value) + tail))
  {
  }

  function Read(name: string, value: string): (Option<Parameter>, string) {
    var (v, left) := ReadValue(value);
    var p := Parameter(Lower(name), v);
    (if IsParameter(p) then Some(p) else None, left)
  }

  lemma NameReadsBack(name: string, value: string)
    requires IsToken(name)
    ensures ReadParameter([' '] + (name + ['='] + value)) == Read(name, value)
  {
    var text := name + ['='] + value;
    Around(name, '=', value);
    TrimStartIs(text);
    NameEnds(name, text);
  }

  lemma ParameterReadsBack(p: Parameter, tail: string)
    requires WellFormedParameter(p) && Follows(tail)
    ensures ReadParameter(ParameterText(p) + tail) == (Some(p), AfterSemicolon(tail))
  {
    ParameterTextLayout(p, tail);
    NameReadsBack(p.name, ValueText(p.value) + tail);
    ValueReadsBack(p.value, tail);
  }

  lemma ParametersUnfold(rest: string, p: Parameter, left: string)
    requires rest != "" && ReadParameter(rest) == (Some(p), left)
    ensures Parameters(rest) == [p] + Parameters(left)
  {
  }

  lemma ParameterStep(p: Parameter, tail: string)
    requires WellFormedParameter(p) && Follows(tail)
    ensures Parameters(AfterSemicolon(";" + (ParameterText(p) + tail))) == [p] + Parameters(AfterSemicolon(tail))
  {
    var text := ParameterText(p) + tail;
    AfterSemicolonOf(";" + text);
    assert (";" + text)[1..] == text;
    ParameterReadsBack(p, tail);
    ParametersUnfold(text, p, AfterSemicolon(tail));
  }

  lemma ParametersLayout(p: Parameter, rest: seq<Parameter>)
    ensures ParametersText([p] + rest) == ";" + (ParameterText(p) + ParametersText(rest))
  {
    assert ([p] + rest)[1..] == rest;
  }

  lemma {:induction false} ParametersReadBack(parameters: seq<Parameter>)
    requires forall i :: 0 <= i < |parameters| ==> WellFormedParameter(parameters[i])
    ensures Parameters(AfterSemicolon(ParametersText(parameters))) == parameters
    decreases |parameters|
  {
    if parameters == [] {
    } else {
      var p, rest := parameters[0], parameters[1..];
      assert parameters == [p] + rest;
      ParametersTextEnds(rest);
      ParametersLayout(p, rest);
      ParameterStep(p, ParametersText(rest));
      ParametersReadBack(rest);
    }
  }

  lemma TrimIs(s: string)
    requires s != "" ==> !IsWhitespace(s[0]) && !IsWhitespace(s[|s| - 1])
    ensures Trim(s) == s
  {
    TrimStartIs(s);
    TrimEndIs(s);
  }

  lemma NoWhitespaceAtTheEnds(m: MediaType)
    requires WellFormed(m)
    ensures Trim(Displayed(m)) == Displayed(m) && Trim(m.essence) == m.essence
  {
    ParametersTextEnds(m.parameters);
    assert IsTokenChar(m.essence[..m.slash][0]);
    assert IsTokenChar(m.essence[m.slash + 1..][|m.essence| - m.slash - 2]);
    TrimIs(m.essence);
    TrimIs(Displayed(m));
  }

  lemma {:induction false} ParametersTextEnds(parameters: seq<Parameter>)
    requires forall i :: 0 <= i < |parameters| ==> WellFormedParameter(parameters[i])
    ensures Follows(ParametersText(parameters))
    ensures parameters != [] ==> ParametersText(parameters) != ""
                                 && !IsWhitespace(ParametersText(parameters)[|ParametersText(parameters)| - 1])
    decreases |parameters|
  {
    if parameters == [] {
    } else {
      ParametersTextEnds(parameters[1..]);
    }
  }

  lemma NoSeparator(essence: string, slash: nat)
    requires slash < |essence| && essence[slash] == '/'
    requires IsToken(essence[..slash]) && IsToken(essence[slash + 1..])
    ensures forall i :: 0 <= i < |essence| ==> essence[i] != ';' && (i < slash ==> essence[i] != '/')
  {
    forall i | 0 <= i < |essence| ensures essence[i] != ';' && (i < slash ==> essence[i] != '/') {
      if i < slash {
        assert essence[i] == essence[..slash][i];
      } else if i > slash {
        assert essence[i] == essence[slash + 1..][i - slash - 1];
      }
    }
  }

  lemma EssenceEnds(essence: string, slash: nat, tail: string)
    requires slash < |essence| && essence[slash] == '/'
    requires IsToken(essence[..slash]) && IsToken(essence[slash + 1..])
    requires Follows(tail)
    ensures Find(essence, {'/'}) == slash
    ensures Find(essence + tail, {';'}) == |essence|
    ensures (essence + tail)[..|essence|] == essence
    ensures AfterSemicolon(essence + tail) == AfterSemicolon(tail)
  {
    NoSeparator(essence, slash);
    FindIs(essence, {'/'}, slash);
    FindIs(essence + tail, {';'}, |essence|);
    AfterSemicolonOf(tail);
    assert tail != "" ==> (essence + tail)[|essence| + 1..] == tail[1..];
  }

  /** A well-formed media type reads back from the text it prints as. */
  lemma DisplayedParsesBack(m: MediaType)
    requires WellFormed(m)
    ensures Parsed(Displayed(m)) == Some(m)
  {
    NoWhitespaceAtTheEnds(m);
    ParametersTextEnds(m.parameters);
    EssenceEnds(m.essence, m.slash, ParametersText(m.parameters));
    ParametersReadBack(m.parameters);
    DistinctIsKept(m.parameters);
  }

  /** The round trip: whatever text was parsed, printing the result and
      parsing that gives the result again. */
  lemma RoundTrip(value: string)
    requires Parsed(value).Some?
    ensures Parsed(Displayed(Parsed(value).value)) == Parsed(value)
  {
    ParsedIsWellFormed(value);
    DisplayedParsesBack(Parsed(value).value);
  }

  /** The media types some text parses to are exactly the well-formed ones. */
  lemma ParsedExactlyTheWellFormed(m: MediaType)
    ensures WellFormed(m) <==> exists value :: Parsed(value) == Some(m)
  {
    if WellFormed(m) {
      DisplayedParsesBack(m);
    }
    forall value | Parsed(value) == Some(m) ensures WellFormed(m) {
      ParsedIsWellFormed(value);
    }
  }
}
