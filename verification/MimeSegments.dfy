/** Parameters stand on their own: whatever one of them holds, the ones behind
    its semicolon are read as if it were not there. */
module MimeSegments {
  import opened Options
  import opened Mime

  predicate Without(s: string, c: char) {
    forall i :: 0 <= i < |s| ==> s[i] != c
  }

  // ------------------------------------------------ in front of a semicolon

  lemma {:induction false} FindBefore(s: string, tail: string, stops: set<char>)
    ensures Find(s, stops) < |s| ==> Find(s + tail, stops) == Find(s, stops)
    ensures Find(s, stops) == |s| ==> Find(s + tail, stops) == |s| + Find(tail, stops)
    decreases |s|
  {
    if s == "" {
      assert s + tail == tail;
    } else {
      assert (s + tail)[0] == s[0] && (s + tail)[1..] == s[1..] + tail;
      FindBefore(s[1..], tail, stops);
    }
  }

  lemma {:induction false} TrimStartBefore(s: string, tail: string)
    requires tail != "" && !IsWhitespace(tail[0])
    ensures TrimStart(s + tail) == TrimStart(s) + tail
    decreases |s|
  {
    if s == "" {
      assert s + tail == tail;
    } else {
      assert (s + tail)[0] == s[0] && (s + tail)[1..] == s[1..] + tail;
      if IsWhitespace(s[0]) {
        TrimStartBefore(s[1..], tail);
      }
    }
  }

  lemma {:induction false} TrimStartWithout(s: string, c: char)
    requires Without(s, c)
    ensures Without(TrimStart(s), c)
    decreases |s|
  {
    if s != "" && IsWhitespace(s[0]) {
      assert forall i :: 0 <= i < |s| - 1 ==> s[1..][i] == s[i + 1];
      TrimStartWithout(s[1..], c);
    }
  }

  lemma {:induction false} NoStop(s: string, stops: set<char>)
    requires forall i :: 0 <= i < |s| ==> s[i] !in stops
    ensures Find(s, stops) == |s|
    decreases |s|
  {
    if s != "" {
      assert forall i :: 0 <= i < |s| - 1 ==> s[1..][i] == s[i + 1];
      NoStop(s[1..], stops);
    }
  }

  lemma Layout(s: string, rest: string)
    ensures var t := s + (";" + rest);
            |s| < |t| && t[..|s|] == s && t[|s|] == ';' && t[|s| + 1..] == rest && forall i :: 0 <= i < |s| ==> t[i] == s[i]
  {
  }

  lemma SemicolonBehind(s: string, rest: string)
    requires Without(s, ';')
    ensures Find(s, {';'}) == |s| && Find(s + (";" + rest), {';'}) == |s|
    ensures AfterSemicolon(s) == "" && AfterSemicolon(s + (";" + rest)) == rest
    ensures (s + (";" + rest))[..|s|] == s
  {
    NoStop(s, {';'});
    Layout(s, rest);
    FindIs(s + (";" + rest), {';'}, |s|);
  }

  lemma PlainValueStands(v: string, rest: string)
    requires Without(v, ';') && Without(v, '"')
    ensures ReadValue(v + (";" + rest)) == (ReadValue(v).0, rest)
  {
    SemicolonBehind(v, rest);
    assert (v + (";" + rest))[0] == if v == "" then ';' else v[0];
    assert v[..|v|] == v;
  }

  // ------------------------------------------------------- one parameter

  lemma NameBefore(text: string, tail: string)
    requires Without(text, ';') && tail != "" && tail[0] == ';'
    ensures Find(text + tail, {';', '='}) == Find(text, {';', '='})
  {
    FindBefore(text, tail, {';', '='});
  }

  /** Text in front of a semicolon that holds no quote reads as it does on its
      own, and leaves exactly what is behind the semicolon. */
  lemma SegmentReads(segment: string, rest: string)
    requires Without(segment, ';') && Without(segment, '"')
    ensures ReadParameter(segment + (";" + rest)) == (ReadParameter(segment).0, rest)
  {
    var tail, text := ";" + rest, TrimStart(segment);
    TrimStartBefore(segment, tail);
    TrimStartWithout(segment, ';');
    TrimStartWithout(segment, '"');
    NameBefore(text, tail);
    var n := Find(text, {';', '='});
    if n < |text| {
      assert text[n] == '=';
      var v := text[n + 1..];
      assert (text + tail)[..n] == text[..n] && (text + tail)[n + 1..] == v + tail;
      assert forall i :: 0 <= i < |v| ==> v[i] == text[n + 1 + i];
      PlainValueStands(v, rest);
    } else {
      assert (text + tail)[n] == ';' && (text + tail)[n + 1..] == rest;
    }
  }

  lemma AloneReads(segment: string)
    requires Without(segment, ';') && Without(segment, '"')
    ensures ReadParameter(segment).1 == ""
  {
    var text := TrimStart(segment);
    TrimStartWithout(segment, ';');
    TrimStartWithout(segment, '"');
    var n := Find(text, {';', '='});
    if n < |text| {
      var v := text[n + 1..];
      assert forall i :: 0 <= i < |v| ==> v[i] == text[n + 1 + i];
      SemicolonBehind(v, "");
    }
  }

  /** A stretch without a quote, well formed or not, costs nothing but itself. */
  lemma UnquotedStandsAlone(segment: string, rest: string)
    requires Without(segment, ';') && Without(segment, '"')
    ensures Parameters(segment + (";" + rest)) == Parameters(segment) + Parameters(rest)
  {
    var found := ReadParameter(segment).0;
    SegmentReads(segment, rest);
    ReadsThenGoesOn(segment + (";" + rest), found, rest);
    if segment == "" {
      assert found.None?;
    } else {
      AloneReads(segment);
      ReadsThenGoesOn(segment, found, "");
    }
  }

  lemma ReadsThenGoesOn(text: string, found: Option<Parameter>, left: string)
    requires text != "" && ReadParameter(text) == (found, left)
    ensures Parameters(text) == (if found.Some? then [found.value] else []) + Parameters(left)
  {
    ParametersStep(text);
    assert [] + Parameters(left) == Parameters(left);
  }

  // --------------------------------------------------- quoted parameters

  /** A name, and a quoted value with anything behind its closing quote. */
  function QuotedText(name: string, value: string, junk: string): string {
    name + ['='] + ("\"" + (Escaped(value) + "\"" + junk))
  }

  lemma NameThenValue(name: string, value: string)
    requires Without(name, ';') && Without(name, '=') && (name != "" ==> !IsWhitespace(name[0]))
    ensures ReadParameter(name + ['='] + value) == Read(name, value)
  {
    var text := name + ['='] + value;
    Around(name, '=', value);
    assert text[0] == if name == "" then '=' else name[0];
    TrimStartIs(text);
    forall i | 0 <= i < |name| ensures text[i] !in {';', '='} {
      assert text[i] == text[..|name|][i];
    }
    FindIs(text, {';', '='}, |name|);
  }

  lemma QuotedReads(name: string, value: string, junk: string, rest: string)
    requires Without(name, ';') && Without(name, '=') && (name != "" ==> !IsWhitespace(name[0])) && Without(junk, ';')
    ensures ReadParameter(QuotedText(name, value, junk + (";" + rest))) ==
            (var p := Parameter(Lower(name), value); if IsParameter(p) then Some(p) else None, rest)
  {
    var tail := junk + (";" + rest);
    NameThenValue(name, "\"" + (Escaped(value) + "\"" + tail));
    QuotedReadsBack(value, tail);
    SemicolonBehind(junk, rest);
  }

  /** A quoted value may hold semicolons and quotes; what stands behind its
      closing quote is dropped up to the next semicolon, and nothing else is. */
  lemma QuotedStandsAlone(name: string, value: string, junk: string, rest: string)
    requires Without(name, ';') && Without(name, '=') && (name != "" ==> !IsWhitespace(name[0])) && Without(junk, ';')
    ensures Parameters(QuotedText(name, value, junk + (";" + rest))) ==
            (if IsParameter(Parameter(Lower(name), value)) then [Parameter(Lower(name), value)] else []) + Parameters(rest)
  {
    var p := Parameter(Lower(name), value);
    QuotedReads(name, value, junk, rest);
    ReadsThenGoesOn(QuotedText(name, value, junk + (";" + rest)), if IsParameter(p) then Some(p) else None, rest);
  }

  // ---------------------------------------------------------- the essence

  predicate AllWhite(s: string) {
    forall i :: 0 <= i < |s| ==> IsWhitespace(s[i])
  }

  lemma {:induction false} TrimStartSplits(s: string) returns (before: string)
    ensures s == before + TrimStart(s) && AllWhite(before)
    decreases |s|
  {
    if s != "" && IsWhitespace(s[0]) {
      before := TrimStartSplits(s[1..]);
      before := [s[0]] + before;
      assert s == [s[0]] + s[1..];
    } else {
      before := "";
    }
  }

  lemma {:induction false} TrimEndSplits(s: string) returns (behind: string)
    ensures s == TrimEnd(s) + behind && AllWhite(behind)
    decreases |s|
  {
    if s != "" && IsWhitespace(s[|s| - 1]) {
      behind := TrimEndSplits(s[..|s| - 1]);
      behind := behind + [s[|s| - 1]];
      assert s == s[..|s| - 1] + [s[|s| - 1]];
    } else {
      behind := "";
    }
  }

  lemma TrimSplits(s: string) returns (before: string, behind: string)
    ensures s == before + Trim(s) + behind && AllWhite(before) && AllWhite(behind)
  {
    before := TrimStartSplits(s);
    behind := TrimEndSplits(TrimStart(s));
    assert before + (Trim(s) + behind) == before + Trim(s) + behind;
  }

  /** `low` is `s` with its ASCII capitals, and nothing else, made small. */
  predicate IsSmall(s: string, low: string) {
    && |low| == |s|
    && forall i :: 0 <= i < |s| ==> if 'A' <= s[i] <= 'Z' then low[i] as int == s[i] as int + 32 else low[i] == s[i]
  }

  lemma LowerIsSmall(s: string)
    ensures IsSmall(s, Lower(s)) && forall i :: 0 <= i < |s| ==> !('A' <= Lower(s)[i] <= 'Z')
  {
  }

  lemma PartsJoin(b0: string, b1: string, essence: string, e1: string, rest: string, e0: string)
    ensures b0 + ((b1 + essence + e1) + rest) + e0 == (b0 + b1) + essence + e1 + (rest + e0)
    ensures b0 + ((b1 + essence + e1) + "") + e0 == (b0 + b1) + essence + (e1 + e0) + ""
  {
  }

  /** The essence of a parsed type is what stands in front of the first
      semicolon, without the whitespace around it, its capitals made small. */
  lemma EssenceIsRead(value: string) returns (before: string, essence: string, behind: string, tail: string)
    requires Parsed(value).Some?
    ensures value == before + essence + behind + tail
    ensures AllWhite(before) && AllWhite(behind) && Without(essence, ';') && (tail != "" ==> tail[0] == ';')
    ensures IsSmall(essence, Parsed(value).value.essence)
  {
    var text := Trim(value);
    var n := Find(text, {';'});
    var b0, e0 := TrimSplits(value);
    var b1, e1 := TrimSplits(text[..n]);
    essence := Trim(text[..n]);
    assert text == text[..n] + text[n..];
    assert forall i :: 0 <= i < |essence| ==> essence[i] == text[..n][|b1| + i];
    LowerIsSmall(essence);
    before := b0 + b1;
    PartsJoin(b0, b1, essence, e1, text[n..], e0);
    if n < |text| {
      behind, tail := e1, text[n..] + e0;
    } else {
      behind, tail := e1 + e0, "";
    }
  }

  /** Parsed types and parameter names have no capitals. */
  lemma ParsedHasNoCapitals(value: string)
    requires Parsed(value).Some?
    ensures var m := Parsed(value).value;
            && (forall i :: 0 <= i < |m.essence| ==> !('A' <= m.essence[i] <= 'Z'))
            && (forall k, i :: 0 <= k < |m.parameters| && 0 <= i < |m.parameters[k].name| ==>
                  !('A' <= m.parameters[k].name[i] <= 'Z'))
  {
    var m := Parsed(value).value;
    ParsedIsWellFormed(value);
    LowerIsSmall(m.essence);
    forall k | 0 <= k < |m.parameters|
      ensures forall i :: 0 <= i < |m.parameters[k].name| ==> !('A' <= m.parameters[k].name[i] <= 'Z')
    {
      assert WellFormedParameter(m.parameters[k]);
      LowerIsSmall(m.parameters[k].name);
    }
  }
}
