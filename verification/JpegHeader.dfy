/** The size in a JPEG header: a walk over the marker segments to the first
    frame header (Annex B.1.1 and B.2.2 of ITU-T T.81). */
module JpegHeader {
  import opened Bytes
  import opened Options

  datatype Size = Size(width: nat, height: nat)

  /** Markers that stand alone, without a length. */
  predicate StandsAlone(code: Byte) {
    code == 0x01 || 0xd0 <= code <= 0xd8
  }

  /** End of image and start of scan: no frame header can follow them. */
  predicate EndsHeader(code: Byte) {
    code == 0xd9 || code == 0xda
  }

  predicate StartsFrame(code: Byte) {
    0xc0 <= code <= 0xcf && code != 0xc4 && code != 0xc8 && code != 0xcc
  }

  function Word(s: seq<Byte>, offset: nat): Option<nat> {
    if offset + 2 <= |s| then Some(256 * s[offset] as nat + s[offset + 1] as nat) else None
  }

  /** How many fill bytes `s` begins with. */
  function Fill(s: seq<Byte>): (n: nat)
    ensures n <= |s| && (n < |s| ==> s[n] != 0xff)
    ensures forall i :: 0 <= i < n ==> s[i] == 0xff
  {
    if s != [] && s[0] == 0xff then 1 + Fill(s[1..]) else 0
  }

  /** The frame header behind a start-of-frame marker. */
  function FrameSize(s: seq<Byte>): Option<Size> {
    match (Word(s, 0), Word(s, 3), Word(s, 5))
    case (Some(length), Some(height), Some(width)) => if length < 7 then None else Some(Size(width, height))
    case _ => None
  }

  /** The size found by reading markers from the front of `s`; `prefixed` is
      whether the byte in front of `s` is 0xff. */
  function Sized(s: seq<Byte>, prefixed: bool): Option<Size>
    decreases |s|, 0
  {
    var n := Fill(s);
    if n == |s| || (n == 0 && !prefixed) then None else Behind(s[n], s[n + 1..])
  }

  /** The size found behind the marker `code`. */
  function Behind(code: Byte, rest: seq<Byte>): Option<Size>
    decreases |rest|, 1
  {
    if StandsAlone(code) then Sized(rest, false)
    else if EndsHeader(code) then None
    else if StartsFrame(code) then FrameSize(rest)
    else
      match Word(rest, 0)
      case None => None
      case Some(length) =>
        if length < 2 || length > |rest| then None
        else Sized(rest[length..], rest[length - 1] == 0xff)
  }

  /** The first two bytes, the start of the image, are not looked at. */
  function ProbedSize(bytes: seq<Byte>): Option<Size> {
    if |bytes| < 2 then None else Sized(bytes[2..], false)
  }

  lemma FillFrom(bytes: seq<Byte>, position: nat)
    requires position <= |bytes|
    ensures if position < |bytes| && bytes[position] == 0xff then Fill(bytes[position..]) == 1 + Fill(bytes[position + 1..])
            else Fill(bytes[position..]) == 0
  {
    if position < |bytes| {
      assert bytes[position..][1..] == bytes[position + 1..];
    }
  }

  method SkipFill(bytes: seq<Byte>, start: nat) returns (position: nat)
    requires start <= |bytes|
    ensures position == start + Fill(bytes[start..])
  {
    position := start;
    while position < |bytes| && bytes[position] == 0xff
      invariant start <= position <= |bytes|
      invariant start + Fill(bytes[start..]) == position + Fill(bytes[position..])
    {
      FillFrom(bytes, position);
      position := position + 1;
    }
    FillFrom(bytes, position);
  }

  /** What is found from `position` on; nothing behind the end. */
  function SizedAt(bytes: seq<Byte>, position: nat): Option<Size> {
    if position > |bytes| then None
    else Sized(bytes[position..], 3 <= position && bytes[position - 1] == 0xff)
  }

  lemma BehindAlone(bytes: seq<Byte>, position: nat)
    requires 2 <= position < |bytes| && StandsAlone(bytes[position])
    ensures Behind(bytes[position], bytes[position + 1..]) == SizedAt(bytes, position + 1)
  {
  }

  lemma BehindSegment(bytes: seq<Byte>, position: nat, length: nat)
    requires 2 <= position < |bytes|
    requires !StandsAlone(bytes[position]) && !EndsHeader(bytes[position]) && !StartsFrame(bytes[position])
    requires Word(bytes[position + 1..], 0) == Some(length) && length >= 2
    ensures Behind(bytes[position], bytes[position + 1..]) == SizedAt(bytes, position + 1 + length)
  {
    var rest := bytes[position + 1..];
    if length <= |rest| {
      assert rest[length..] == bytes[position + 1 + length..];
      assert rest[length - 1] == bytes[position + length];
    }
  }

  /** The prefix test of the walk, and the marker behind it. */
  lemma AtMarker(bytes: seq<Byte>, start: nat, position: nat)
    requires 2 <= start <= |bytes| && position == start + Fill(bytes[start..])
    ensures SizedAt(bytes, start) ==
            if position == |bytes| || position < 3 || bytes[position - 1] != 0xff then None
            else Behind(bytes[position], bytes[position + 1..])
  {
    var s, n := bytes[start..], Fill(bytes[start..]);
    assert n > 0 ==> s[n - 1] == bytes[position - 1];
    if position < |bytes| {
      assert s[n] == bytes[position] && s[n + 1..] == bytes[position + 1..];
    }
  }

  /** What one marker tells: the answer, or where to look next. */
  datatype Turn = Answer(size: Option<Size>) | GoOn(position: nat)

  /** Reads the marker at `position` and what belongs to it. */
  method ReadMarker(bytes: seq<Byte>, position: nat) returns (turn: Turn)
    requires 2 <= position < |bytes|
    ensures match turn
            case Answer(size) => size == Behind(bytes[position], bytes[position + 1..])
            case GoOn(next) => next > position && SizedAt(bytes, next) == Behind(bytes[position], bytes[position + 1..])
  {
    var marker, after := bytes[position], position + 1;
    if StandsAlone(marker) {
      BehindAlone(bytes, position);
      return GoOn(after);
    }
    if EndsHeader(marker) {
      return Answer(None);
    }
    if StartsFrame(marker) {
      var size := ReadFrame(bytes, after);
      return Answer(size);
    }
    var length := Word(bytes[after..], 0);
    if length.None? || length.value < 2 {
      return Answer(None);
    }
    BehindSegment(bytes, position, length.value);
    return GoOn(after + length.value);
  }

  method ProbeJpeg(bytes: seq<Byte>) returns (size: Option<Size>)
    ensures size == ProbedSize(bytes)
  {
    var position: nat := 2;
    while true
      invariant 2 <= position && SizedAt(bytes, position) == ProbedSize(bytes)
      decreases |bytes| - position
    {
      if position > |bytes| {
        return None;
      }
      ghost var start := position;
      position := SkipFill(bytes, position);
      AtMarker(bytes, start, position);
      if position == |bytes| || position < 3 || bytes[position - 1] != 0xff {
        return None;
      }
      var turn := ReadMarker(bytes, position);
      match turn
      case Answer(answer) =>
        return answer;
      case GoOn(next) =>
        position := next;
    }
  }

  method ReadFrame(bytes: seq<Byte>, position: nat) returns (size: Option<Size>)
    requires position <= |bytes|
    ensures size == FrameSize(bytes[position..])
  {
    var length := Word(bytes[position..], 0);
    if length.None? || length.value < 7 {
      return None;
    }
    var height := Word(bytes[position..], 3);
    var width := Word(bytes[position..], 5);
    if height.None? || width.None? {
      return None;
    }
    return Some(Size(width.value, height.value));
  }

  // ------------------------------------------------------------ the grammar

  /** A marker and what belongs to it, in front of the frame header. */
  datatype Part =
    | Marker(fill: nat, code: Byte)
    | Segment(fill: nat, code: Byte, high: Byte, low: Byte, payload: seq<Byte>)

  /** The frame header: its length, a precision, and the size. */
  datatype Frame = Frame(fill: nat, code: Byte, length: seq<Byte>, precision: Byte, height: seq<Byte>, width: seq<Byte>)

  function Filled(n: nat): seq<Byte> {
    if n == 0 then [] else [0xff] + Filled(n - 1)
  }

  function PartText(p: Part): seq<Byte> {
    match p
    case Marker(_, code) => [code]
    case Segment(_, code, high, low, payload) => [code] + ([high, low] + payload)
  }

  function PartsText(parts: seq<Part>, tail: seq<Byte>): seq<Byte> {
    if parts == [] then tail
    else Filled(parts[0].fill) + (PartText(parts[0]) + PartsText(parts[1..], tail))
  }

  function FrameText(f: Frame, tail: seq<Byte>): seq<Byte> {
    Filled(f.fill) + ([f.code] + (f.length + [f.precision] + f.height + f.width + tail))
  }

  predicate ValidPart(p: Part) {
    && p.code != 0xff && !EndsHeader(p.code) && !StartsFrame(p.code)
    && match p
       case Marker(_, code) => StandsAlone(code)
       case Segment(_, code, high, low, payload) =>
         !StandsAlone(code) && 256 * high as nat + low as nat == |payload| + 2
  }

  /** The last byte of a part is the prefix of the next marker too. */
  predicate LendsPrefix(p: Part) {
    p.Segment? && p.payload != [] && p.payload[|p.payload| - 1] == 0xff
  }

  /** Every marker has fill bytes of its own, or is lent a prefix by the part
      in front of it. */
  predicate Prefixed(parts: seq<Part>, last: nat, prefixed: bool) {
    if parts == [] then last > 0 || prefixed
    else (parts[0].fill > 0 || prefixed) && Prefixed(parts[1..], last, LendsPrefix(parts[0]))
  }

  predicate ValidFrame(f: Frame) {
    && StartsFrame(f.code) && |f.length| == 2 && |f.height| == 2 && |f.width| == 2
    && 256 * f.length[0] as nat + f.length[1] as nat >= 7
  }

  predicate ValidParts(parts: seq<Part>) {
    forall i :: 0 <= i < |parts| ==> ValidPart(parts[i])
  }

  function FrameValue(f: Frame): Size
    requires |f.height| == 2 && |f.width| == 2
  {
    Size(256 * f.width[0] as nat + f.width[1] as nat, 256 * f.height[0] as nat + f.height[1] as nat)
  }

  lemma {:induction false} FillOf(n: nat, s: seq<Byte>)
    requires s != [] && s[0] != 0xff
    ensures |Filled(n) + s| > n && Fill(Filled(n) + s) == n
    ensures (Filled(n) + s)[n] == s[0] && (Filled(n) + s)[n + 1..] == s[1..]
    decreases n
  {
    if n == 0 {
      assert Filled(0) + s == s;
    } else {
      assert (Filled(n) + s)[1..] == Filled(n - 1) + s;
      FillOf(n - 1, s);
    }
  }

  lemma {:induction false} OneMoreFill(s: seq<Byte>, fill: seq<Byte>, n: nat)
    requires s != [] && n < |s| && s[1..] == fill + s[1..][n..]
    ensures s == ([s[0]] + fill) + s[n + 1..]
  {
    assert s == [s[0]] + s[1..];
    assert s[1..][n..] == s[n + 1..];
  }

  lemma {:induction false} FillSplits(s: seq<Byte>)
    ensures s == Filled(Fill(s)) + s[Fill(s)..]
    decreases |s|
  {
    if s != [] && s[0] == 0xff {
      var n := Fill(s[1..]);
      FillSplits(s[1..]);
      OneMoreFill(s, Filled(n), n);
      assert Filled(n + 1) == [0xff] + Filled(n);
    } else {
      assert s[0..] == s;
    }
  }

  /** The walk over fill bytes and one marker code. */
  lemma {:induction false} SizedUnfold(n: nat, code: Byte, rest: seq<Byte>, prefixed: bool)
    requires code != 0xff && (n > 0 || prefixed)
    ensures Sized(Filled(n) + ([code] + rest), prefixed) == Behind(code, rest)
  {
    FillOf(n, [code] + rest);
    assert ([code] + rest)[1..] == rest;
  }

  lemma FrameReads(f: Frame, tail: seq<Byte>, prefixed: bool)
    requires ValidFrame(f) && (f.fill > 0 || prefixed)
    ensures Sized(FrameText(f, tail), prefixed) == Some(FrameValue(f))
  {
    SizedUnfold(f.fill, f.code, f.length + [f.precision] + f.height + f.width + tail, prefixed);
    FrameLayout(f, tail);
  }

  lemma FrameLayout(f: Frame, tail: seq<Byte>)
    requires ValidFrame(f)
    ensures FrameSize(f.length + [f.precision] + f.height + f.width + tail) == Some(FrameValue(f))
  {
  }

  lemma SegmentLayout(high: Byte, low: Byte, payload: seq<Byte>, tail: seq<Byte>)
    ensures var rest := [high, low] + payload + tail;
            && rest[0] == high && rest[1] == low && rest[|payload| + 2..] == tail
            && rest[|payload| + 1] == if payload == [] then low else payload[|payload| - 1]
  {
  }

  lemma BehindPart(p: Part, tail: seq<Byte>)
    requires ValidPart(p)
    ensures Behind(p.code, (PartText(p) + tail)[1..]) == Sized(tail, LendsPrefix(p))
  {
    match p
    case Marker(_, code) =>
      assert (PartText(p) + tail)[1..] == tail;
    case Segment(_, code, high, low, payload) =>
      assert (PartText(p) + tail)[1..] == [high, low] + payload + tail;
      SegmentLayout(high, low, payload, tail);
      assert payload == [] ==> low == 2;
  }

  lemma PartReads(p: Part, tail: seq<Byte>, prefixed: bool)
    requires ValidPart(p) && (p.fill > 0 || prefixed)
    ensures Sized(Filled(p.fill) + (PartText(p) + tail), prefixed) == Sized(tail, LendsPrefix(p))
  {
    var rest := (PartText(p) + tail)[1..];
    assert PartText(p) + tail == [p.code] + rest;
    SizedUnfold(p.fill, p.code, rest, prefixed);
    BehindPart(p, tail);
  }

  lemma {:induction false} PartsRead(parts: seq<Part>, f: Frame, tail: seq<Byte>, prefixed: bool)
    requires ValidParts(parts) && ValidFrame(f) && Prefixed(parts, f.fill, prefixed)
    ensures Sized(PartsText(parts, FrameText(f, tail)), prefixed) == Some(FrameValue(f))
    decreases |parts|
  {
    if parts == [] {
      FrameReads(f, tail, prefixed);
    } else {
      PartReads(parts[0], PartsText(parts[1..], FrameText(f, tail)), prefixed);
      PartsRead(parts[1..], f, tail, LendsPrefix(parts[0]));
    }
  }

  /** For any number of standalone markers and segments with any fill bytes,
      the size read is that of the first frame header. */
  lemma ReadsTheFirstFrame(start: seq<Byte>, parts: seq<Part>, f: Frame, tail: seq<Byte>)
    requires |start| == 2 && ValidParts(parts) && ValidFrame(f) && Prefixed(parts, f.fill, false)
    ensures ProbedSize(start + PartsText(parts, FrameText(f, tail))) == Some(FrameValue(f))
  {
    var text := PartsText(parts, FrameText(f, tail));
    assert (start + text)[2..] == text;
    PartsRead(parts, f, tail, false);
  }

  lemma FrameBehind(code: Byte, rest: seq<Byte>)
    requires StartsFrame(code)
    ensures Behind(code, rest) == FrameSize(rest)
  {
  }

  lemma FrameParts(code: Byte, rest: seq<Byte>, n: nat) returns (f: Frame, tail: seq<Byte>)
    requires StartsFrame(code) && FrameSize(rest).Some?
    ensures ValidFrame(f) && f.fill == n && f.code == code && FrameSize(rest) == Some(FrameValue(f))
    ensures FrameText(f, tail) == Filled(n) + ([code] + rest)
  {
    f := Frame(n, code, rest[..2], rest[2], rest[3..5], rest[5..7]);
    tail := rest[7..];
    assert rest == f.length + [f.precision] + f.height + f.width + tail;
  }

  lemma {:induction false} FrameFound(s: seq<Byte>, prefixed: bool) returns (f: Frame, tail: seq<Byte>)
    requires Sized(s, prefixed).Some? && StartsFrame(s[Fill(s)])
    ensures ValidFrame(f) && s == FrameText(f, tail) && Sized(s, prefixed) == Some(FrameValue(f))
    ensures f.fill == Fill(s)
  {
    var n := Fill(s);
    var rest := s[n + 1..];
    FillSplits(s);
    assert s[n..] == [s[n]] + rest;
    FrameBehind(s[n], rest);
    f, tail := FrameParts(s[n], rest, n);
  }

  lemma SegmentFound(n: nat, code: Byte, rest: seq<Byte>) returns (p: Part, tail: seq<Byte>)
    requires Behind(code, rest).Some? && code != 0xff && !StandsAlone(code) && !StartsFrame(code)
    ensures ValidPart(p) && p.fill == n && [code] + rest == PartText(p) + tail
    ensures Behind(code, rest) == Sized(tail, LendsPrefix(p)) && |tail| < |rest|
  {
    var length := Word(rest, 0).value;
    p, tail := Segment(n, code, rest[0], rest[1], rest[2..length]), rest[length..];
    assert rest == [rest[0], rest[1]] + rest[2..length] + tail;
    assert length > 2 ==> rest[2..length][length - 3] == rest[length - 1];
    SegmentLayout(rest[0], rest[1], rest[2..length], tail);
  }

  lemma PartFound(s: seq<Byte>, prefixed: bool) returns (p: Part, tail: seq<Byte>)
    requires Sized(s, prefixed).Some? && !StartsFrame(s[Fill(s)])
    ensures ValidPart(p) && s == Filled(p.fill) + (PartText(p) + tail) && (p.fill > 0 || prefixed)
    ensures Sized(s, prefixed) == Sized(tail, LendsPrefix(p)) && |tail| < |s|
  {
    var n := Fill(s);
    var code, rest := s[n], s[n + 1..];
    FillSplits(s);
    assert s[n..] == [code] + rest;
    if StandsAlone(code) {
      p, tail := Marker(n, code), rest;
    } else {
      p, tail := SegmentFound(n, code, rest);
    }
  }

  lemma {:induction false} SizedFound(s: seq<Byte>, prefixed: bool) returns (parts: seq<Part>, f: Frame, tail: seq<Byte>)
    requires Sized(s, prefixed).Some?
    ensures ValidParts(parts) && ValidFrame(f) && Prefixed(parts, f.fill, prefixed)
    ensures s == PartsText(parts, FrameText(f, tail)) && Sized(s, prefixed) == Some(FrameValue(f))
    decreases |s|
  {
    if StartsFrame(s[Fill(s)]) {
      parts := [];
      f, tail := FrameFound(s, prefixed);
    } else {
      var p, rest := PartFound(s, prefixed);
      var more;
      more, f, tail := SizedFound(rest, LendsPrefix(p));
      parts := [p] + more;
      assert parts[1..] == more;
    }
  }

  /** A size is read from exactly the byte sequences the grammar describes,
      and it is the first frame's. */
  lemma ReadsExactlyTheGrammar(bytes: seq<Byte>, size: Size)
    ensures ProbedSize(bytes) == Some(size) <==>
              |bytes| >= 2 && exists parts, f, tail ::
                ValidParts(parts) && ValidFrame(f) && Prefixed(parts, f.fill, false)
                && bytes[2..] == PartsText(parts, FrameText(f, tail)) && size == FrameValue(f)
  {
    if ProbedSize(bytes) == Some(size) {
      var parts, f, tail := SizedFound(bytes[2..], false);
    }
    forall parts, f, tail | |bytes| >= 2 && ValidParts(parts) && ValidFrame(f) && Prefixed(parts, f.fill, false)
                            && bytes[2..] == PartsText(parts, FrameText(f, tail)) && size == FrameValue(f)
      ensures ProbedSize(bytes) == Some(size)
    {
      PartsRead(parts, f, tail, false);
    }
  }

  /** The standard gives every marker a prefix of its own. */
  predicate OwnPrefixes(parts: seq<Part>, f: Frame) {
    f.fill > 0 && forall i :: 0 <= i < |parts| ==> parts[i].fill > 0
  }

  /** The walk does not insist on that: a comment whose last byte is 0xff
      lends it to a frame marker written without one, and the frame is read. */
  lemma LentPrefixIsRead() returns (comment: Part, f: Frame)
    ensures ValidParts([comment]) && ValidFrame(f) && !OwnPrefixes([comment], f)
    ensures ProbedSize([0xff, 0xd8] + PartsText([comment], FrameText(f, []))) == Some(Size(1, 2))
  {
    comment := Segment(1, 0xfe, 0, 3, [0xff]);
    f := Frame(0, 0xc0, [0, 7], 8, [0, 2], [0, 1]);
    assert [comment][1..] == [];
    assert Prefixed([], f.fill, true);
    ReadsTheFirstFrame([0xff, 0xd8], [comment], f, []);
  }

  /** Where no part ends in 0xff the walk insists on what the standard asks:
      every marker has a prefix of its own. */
  lemma {:induction false} OwnPrefixesWithoutLending(parts: seq<Part>, last: nat)
    requires forall i :: 0 <= i < |parts| ==> !LendsPrefix(parts[i])
    ensures Prefixed(parts, last, false) <==> last > 0 && forall i :: 0 <= i < |parts| ==> parts[i].fill > 0
    decreases |parts|
  {
    if parts == [] {
    } else {
      OwnPrefixesWithoutLending(parts[1..], last);
      assert forall i :: 0 < i < |parts| ==> parts[i] == parts[1..][i - 1];
      assert forall i :: 0 <= i < |parts| - 1 ==> parts[1..][i] == parts[i + 1];
    }
  }

  /** The marker codes told apart are those of table B.1: the thirteen frame
      headers, the markers without a segment, and the two that end the search. */
  lemma MarkerTable(code: Byte)
    ensures StartsFrame(code) <==>
              code in {0xc0, 0xc1, 0xc2, 0xc3, 0xc5, 0xc6, 0xc7, 0xc9, 0xca, 0xcb, 0xcd, 0xce, 0xcf}
    ensures StandsAlone(code) <==> code in {0x01, 0xd0, 0xd1, 0xd2, 0xd3, 0xd4, 0xd5, 0xd6, 0xd7, 0xd8}
    ensures EndsHeader(code) <==> code in {0xd9, 0xda}
  {
  }
}
