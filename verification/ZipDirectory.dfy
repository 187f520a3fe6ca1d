/** The check a ZIP package passes before its index is built: a small central
    directory, read from the end record backwards and walked record by record
    (sections 4.3.12 and 4.3.16 of PKWARE APPNOTE.TXT). */
module ZipDirectory {
  import opened Bytes
  import opened Options

  datatype Verdict = Valid | Malformed | EntryLimit | DuplicatePath

  const END_SIGNATURE: seq<Byte> := [0x50, 0x4b, 5, 6]
  const RECORD_SIGNATURE: seq<Byte> := [0x50, 0x4b, 1, 2]

  function Read16(bytes: seq<Byte>, offset: nat): nat
    requires offset + 2 <= |bytes|
  {
    bytes[offset] as int + 256 * bytes[offset + 1] as int
  }

  function Read32(bytes: seq<Byte>, offset: nat): nat
    requires offset + 4 <= |bytes|
  {
    Read16(bytes, offset) + 65536 * Read16(bytes, offset + 2)
  }

  predicate SignedAt(bytes: seq<Byte>, offset: nat, signature: seq<Byte>) {
    offset + |signature| <= |bytes| && bytes[offset..offset + |signature|] == signature
  }

  // -------------------------------------------------------- the directory

  /** An end record at `i`, its comment reaching exactly to the last byte. */
  predicate EndsAt(bytes: seq<Byte>, i: nat) {
    i + 22 <= |bytes| && SignedAt(bytes, i, END_SIGNATURE) && i + 22 + Read16(bytes, i + 20) == |bytes|
  }

  /** The end record that counts: no later position holds one. */
  predicate IsLastEnd(bytes: seq<Byte>, end: nat) {
    EndsAt(bytes, end) && forall j: nat :: end < j < |bytes| ==> !EndsAt(bytes, j)
  }

  predicate HeadAt(bytes: seq<Byte>, offset: nat, end: nat) {
    offset + 46 <= end <= |bytes| && SignedAt(bytes, offset, RECORD_SIGNATURE)
  }

  function NameEnd(bytes: seq<Byte>, offset: nat): nat
    requires offset + 46 <= |bytes|
  {
    offset + 46 + Read16(bytes, offset + 28)
  }

  function NextRecord(bytes: seq<Byte>, offset: nat): nat
    requires offset + 46 <= |bytes|
  {
    NameEnd(bytes, offset) + Read16(bytes, offset + 30) + Read16(bytes, offset + 32)
  }

  /** A whole central record at `offset`, in front of `end`. */
  predicate RecordAt(bytes: seq<Byte>, offset: nat, end: nat) {
    HeadAt(bytes, offset, end) && NextRecord(bytes, offset) <= end
  }

  function NameAt(bytes: seq<Byte>, offset: nat, end: nat): seq<Byte>
    requires RecordAt(bytes, offset, end)
  {
    bytes[offset + 46..NameEnd(bytes, offset)]
  }

  /** Records that begin at `starts`, each where the one before it ends. */
  predicate Chain(bytes: seq<Byte>, offset: nat, end: nat, starts: seq<nat>) {
    && (starts != [] ==> starts[0] == offset)
    && (forall k :: 0 <= k < |starts| ==> RecordAt(bytes, starts[k], end))
    && (forall k, l :: 0 <= k && l == k + 1 < |starts| ==> starts[l] == NextRecord(bytes, starts[k]))
  }

  function ChainEnd(bytes: seq<Byte>, offset: nat, starts: seq<nat>): nat
    requires forall k :: 0 <= k < |starts| ==> starts[k] + 46 <= |bytes|
  {
    if starts == [] then offset else NextRecord(bytes, starts[|starts| - 1])
  }

  predicate NamesDiffer(bytes: seq<Byte>, end: nat, starts: seq<nat>)
    requires forall k :: 0 <= k < |starts| ==> RecordAt(bytes, starts[k], end)
  {
    forall k, l :: 0 <= k < l < |starts| ==> NameAt(bytes, starts[k], end) != NameAt(bytes, starts[l], end)
  }

  function Count(bytes: seq<Byte>, end: nat): nat
    requires end + 22 <= |bytes|
  {
    Read16(bytes, end + 10)
  }

  function Start(bytes: seq<Byte>, end: nat): nat
    requires end + 22 <= |bytes|
  {
    Read32(bytes, end + 16)
  }

  /** One disk, the same count twice, and a directory that reaches the end
      record. */
  predicate EnvelopeFits(bytes: seq<Byte>, end: nat)
    requires end + 22 <= |bytes|
  {
    && Read16(bytes, end + 4) == 0 && Read16(bytes, end + 6) == 0
    && Read16(bytes, end + 8) == Count(bytes, end)
    && Start(bytes, end) + Read32(bytes, end + 12) == end
  }

  /** The directory range splits into exactly the counted records. */
  predicate Splits(bytes: seq<Byte>, end: nat, starts: seq<nat>)
    requires end + 22 <= |bytes|
  {
    && |starts| == Count(bytes, end)
    && Chain(bytes, Start(bytes, end), end, starts)
    && ChainEnd(bytes, Start(bytes, end), starts) == end
  }

  /** What the check promises of an accepted package. */
  ghost predicate IsDirectory(bytes: seq<Byte>, limit: nat, end: nat, starts: seq<nat>) {
    && IsLastEnd(bytes, end)
    && Count(bytes, end) <= limit
    && EnvelopeFits(bytes, end)
    && Splits(bytes, end, starts)
    && NamesDiffer(bytes, end, starts)
  }

  // ------------------------------------------------------------- the walk

  /** What walking `count` records from `offset` finds, with `names` seen. */
  function Walk(bytes: seq<Byte>, offset: nat, end: nat, count: nat, names: set<seq<Byte>>): Verdict
    requires end <= |bytes|
    decreases count
  {
    if count == 0 then (if offset == end then Valid else Malformed)
    else if !RecordAt(bytes, offset, end) then Malformed
    else if NameAt(bytes, offset, end) in names then DuplicatePath
    else Walk(bytes, NextRecord(bytes, offset), end, count - 1, names + {NameAt(bytes, offset, end)})
  }

  function Validated(bytes: seq<Byte>, limit: nat, end: nat): Verdict
    requires end + 22 <= |bytes|
  {
    if Count(bytes, end) > limit then EntryLimit
    else if !EnvelopeFits(bytes, end) then Malformed
    else Walk(bytes, Start(bytes, end), end, Count(bytes, end), {})
  }

  function Saturating(n: nat, less: nat): nat {
    if n < less then 0 else n - less
  }

  /** The last end record, searched backwards in the last 65557 bytes. */
  method FindEnd(bytes: seq<Byte>) returns (end: Option<nat>)
    ensures match end
            case Some(i) => IsLastEnd(bytes, i)
            case None => forall j: nat :: j < |bytes| ==> !EndsAt(bytes, j)
  {
    var low, i := Saturating(|bytes|, 65557), Saturating(|bytes|, 21);
    assert forall j: nat :: i <= j < |bytes| ==> !EndsAt(bytes, j);
    while i > low
      invariant low <= i <= |bytes| || i == 0
      invariant i <= Saturating(|bytes|, 21)
      invariant forall j: nat :: i <= j < |bytes| ==> !EndsAt(bytes, j)
    {
      i := i - 1;
      if SignedAt(bytes, i, END_SIGNATURE) && i + 22 + Read16(bytes, i + 20) == |bytes| {
        return Some(i);
      }
    }
    forall j: nat | j < |bytes| ensures !EndsAt(bytes, j) {
      WindowReachesFarEnough(bytes, j);
    }
    return None;
  }

  /** A comment is at most 65535 bytes long, so the window misses nothing. */
  lemma WindowReachesFarEnough(bytes: seq<Byte>, i: nat)
    ensures EndsAt(bytes, i) ==> i >= Saturating(|bytes|, 65557)
  {
    if EndsAt(bytes, i) {
      assert Read16(bytes, i + 20) <= 65535;
    }
  }

  /** Walks the records, growing the set of names it has seen. */
  method WalkDirectory(bytes: seq<Byte>, start: nat, end: nat, count: nat) returns (verdict: Verdict)
    requires end <= |bytes|
    ensures verdict == Walk(bytes, start, end, count, {})
  {
    var offset: nat := start;
    var names: set<seq<Byte>> := {};
    for k := 0 to count
      invariant Walk(bytes, offset, end, count - k, names) == Walk(bytes, start, end, count, {})
    {
      if offset + 46 > end || !SignedAt(bytes, offset, RECORD_SIGNATURE) {
        return Malformed;
      }
      assert HeadAt(bytes, offset, end);
      var nameEnd: nat := offset + 46 + Read16(bytes, offset + 28);
      var next: nat := nameEnd + Read16(bytes, offset + 30) + Read16(bytes, offset + 32);
      if next > end {
        return Malformed;
      }
      assert RecordAt(bytes, offset, end) && next == NextRecord(bytes, offset);
      var name := bytes[offset + 46..nameEnd];
      if name in names {
        return DuplicatePath;
      }
      names := names + {name};
      offset := next;
    }
    return if offset == end then Valid else Malformed;
  }

  method ValidateDirectory(bytes: seq<Byte>, limit: nat) returns (verdict: Verdict)
    ensures forall end: nat :: end < |bytes| && IsLastEnd(bytes, end) ==> verdict == Validated(bytes, limit, end)
    ensures (forall end: nat :: end < |bytes| ==> !EndsAt(bytes, end)) ==> verdict == Malformed
  {
    var found := FindEnd(bytes);
    if found.None? {
      return Malformed;
    }
    var end := found.value;
    forall other: nat | other < |bytes| && IsLastEnd(bytes, other) ensures other == end {
      OneLastEnd(bytes, other, end);
    }
    var count := Read16(bytes, end + 10);
    if count > limit {
      return EntryLimit;
    }
    if Read16(bytes, end + 4) != 0 || Read16(bytes, end + 6) != 0 || Read16(bytes, end + 8) != count {
      return Malformed;
    }
    var size, offset := Read32(bytes, end + 12), Read32(bytes, end + 16);
    if offset + size != end {
      return Malformed;
    }
    verdict := WalkDirectory(bytes, offset, end, count);
  }

  lemma OneLastEnd(bytes: seq<Byte>, a: nat, b: nat)
    requires IsLastEnd(bytes, a) && IsLastEnd(bytes, b)
    ensures a == b
  {
    assert a < b ==> !EndsAt(bytes, b);
    assert b < a ==> !EndsAt(bytes, a);
  }

  // ------------------------------------------------------- what it accepts

  ghost predicate NamesAvoid(bytes: seq<Byte>, end: nat, starts: seq<nat>, names: set<seq<Byte>>)
    requires forall k :: 0 <= k < |starts| ==> RecordAt(bytes, starts[k], end)
  {
    forall k :: 0 <= k < |starts| ==> NameAt(bytes, starts[k], end) !in names
  }

  /** `count` records from `offset`, with names new and distinct, up to `end`. */
  ghost predicate Walks(bytes: seq<Byte>, offset: nat, end: nat, count: nat, names: set<seq<Byte>>, starts: seq<nat>) {
    && |starts| == count
    && Chain(bytes, offset, end, starts)
    && ChainEnd(bytes, offset, starts) == end
    && NamesDiffer(bytes, end, starts)
    && NamesAvoid(bytes, end, starts, names)
  }

  lemma WalksOneMore(bytes: seq<Byte>, offset: nat, end: nat, count: nat, names: set<seq<Byte>>, rest: seq<nat>)
    requires count > 0 && RecordAt(bytes, offset, end) && NameAt(bytes, offset, end) !in names
    requires Walks(bytes, NextRecord(bytes, offset), end, count - 1, names + {NameAt(bytes, offset, end)}, rest)
    ensures Walks(bytes, offset, end, count, names, [offset] + rest)
  {
    if rest == [] {
      assert [offset] + rest == [offset];
    } else {
      ChainOneMore(bytes, offset, end, rest);
    }
    NamesOneMore(bytes, offset, end, names, rest);
  }

  lemma {:induction false} WalkFinds(bytes: seq<Byte>, offset: nat, end: nat, count: nat, names: set<seq<Byte>>)
      returns (starts: seq<nat>)
    requires end <= |bytes| && Walk(bytes, offset, end, count, names) == Valid
    ensures Walks(bytes, offset, end, count, names, starts)
    decreases count
  {
    if count == 0 {
      starts := [];
    } else {
      var name := NameAt(bytes, offset, end);
      var rest := WalkFinds(bytes, NextRecord(bytes, offset), end, count - 1, names + {name});
      WalksOneMore(bytes, offset, end, count, names, rest);
      starts := [offset] + rest;
    }
  }

  lemma {:induction false} WalkAccepts(bytes: seq<Byte>, offset: nat, end: nat, count: nat, names: set<seq<Byte>>, starts: seq<nat>)
    requires end <= |bytes| && Walks(bytes, offset, end, count, names, starts)
    ensures Walk(bytes, offset, end, count, names) == Valid
    decreases count
  {
    if count == 0 {
    } else {
      var name, rest := NameAt(bytes, offset, end), starts[1..];
      assert RecordAt(bytes, starts[0], end);
      assert forall k :: 0 <= k < |rest| ==> rest[k] == starts[k + 1];
      WalkAccepts(bytes, NextRecord(bytes, offset), end, count - 1, names + {name}, rest);
    }
  }

  /** Sound and complete: a package is accepted exactly when its last end
      record describes a directory. */
  lemma AcceptsExactlyDirectories(bytes: seq<Byte>, limit: nat, end: nat)
    requires IsLastEnd(bytes, end)
    ensures Validated(bytes, limit, end) == Valid <==> exists starts :: IsDirectory(bytes, limit, end, starts)
  {
    var offset, count := Start(bytes, end), Count(bytes, end);
    if Validated(bytes, limit, end) == Valid {
      var starts := WalkFinds(bytes, offset, end, count, {});
      assert IsDirectory(bytes, limit, end, starts);
    }
    forall starts | IsDirectory(bytes, limit, end, starts) ensures Validated(bytes, limit, end) == Valid {
      assert Walks(bytes, offset, end, count, {}, starts);
      WalkAccepts(bytes, offset, end, count, {}, starts);
    }
  }

  /** The first record whose name was seen before, behind records whose names
      were all new. */
  ghost predicate Repeats(bytes: seq<Byte>, offset: nat, end: nat, count: nat, names: set<seq<Byte>>, starts: seq<nat>) {
    && 0 < |starts| <= count
    && Chain(bytes, offset, end, starts)
    && NamesDiffer(bytes, end, starts[..|starts| - 1])
    && NamesAvoid(bytes, end, starts[..|starts| - 1], names)
    && var last := NameAt(bytes, starts[|starts| - 1], end);
       (last in names || exists k :: 0 <= k < |starts| - 1 && NameAt(bytes, starts[k], end) == last)
  }

  lemma ChainOneMore(bytes: seq<Byte>, offset: nat, end: nat, rest: seq<nat>)
    requires RecordAt(bytes, offset, end) && rest != [] && Chain(bytes, NextRecord(bytes, offset), end, rest)
    ensures Chain(bytes, offset, end, [offset] + rest)
  {
    var starts := [offset] + rest;
    assert forall k :: 0 < k < |starts| ==> starts[k] == rest[k - 1];
  }

  lemma NamesOneMore(bytes: seq<Byte>, offset: nat, end: nat, names: set<seq<Byte>>, earlier: seq<nat>)
    requires RecordAt(bytes, offset, end) && NameAt(bytes, offset, end) !in names
    requires forall k :: 0 <= k < |earlier| ==> RecordAt(bytes, earlier[k], end)
    requires NamesDiffer(bytes, end, earlier) && NamesAvoid(bytes, end, earlier, names + {NameAt(bytes, offset, end)})
    ensures forall k :: 0 <= k < |[offset] + earlier| ==> RecordAt(bytes, ([offset] + earlier)[k], end)
    ensures NamesDiffer(bytes, end, [offset] + earlier) && NamesAvoid(bytes, end, [offset] + earlier, names)
  {
    var starts := [offset] + earlier;
    assert forall k :: 0 < k < |starts| ==> starts[k] == earlier[k - 1];
  }

  lemma RepeatOneMore(bytes: seq<Byte>, offset: nat, end: nat, count: nat, names: set<seq<Byte>>, rest: seq<nat>)
    requires count > 0 && RecordAt(bytes, offset, end) && NameAt(bytes, offset, end) !in names
    requires Repeats(bytes, NextRecord(bytes, offset), end, count - 1, names + {NameAt(bytes, offset, end)}, rest)
    ensures Repeats(bytes, offset, end, count, names, [offset] + rest)
  {
    var starts := [offset] + rest;
    ChainOneMore(bytes, offset, end, rest);
    NamesOneMore(bytes, offset, end, names, rest[..|rest| - 1]);
    assert starts[..|starts| - 1] == [offset] + rest[..|rest| - 1];
    RepeatStands(bytes, offset, end, names, rest, starts);
  }

  lemma {:induction false} RepeatFound(bytes: seq<Byte>, offset: nat, end: nat, count: nat, names: set<seq<Byte>>)
      returns (starts: seq<nat>)
    requires end <= |bytes| && Walk(bytes, offset, end, count, names) == DuplicatePath
    ensures Repeats(bytes, offset, end, count, names, starts)
    decreases count
  {
    var name := NameAt(bytes, offset, end);
    if name in names {
      starts := [offset];
      assert starts[..0] == [];
    } else {
      var rest := RepeatFound(bytes, NextRecord(bytes, offset), end, count - 1, names + {name});
      RepeatOneMore(bytes, offset, end, count, names, rest);
      starts := [offset] + rest;
    }
  }

  lemma RepeatStands(bytes: seq<Byte>, offset: nat, end: nat, names: set<seq<Byte>>, rest: seq<nat>, starts: seq<nat>)
    requires RecordAt(bytes, offset, end) && rest != [] && starts == [offset] + rest
    requires forall k :: 0 <= k < |rest| ==> RecordAt(bytes, rest[k], end)
    requires var last := NameAt(bytes, rest[|rest| - 1], end);
             last in names + {NameAt(bytes, offset, end)}
             || exists k :: 0 <= k < |rest| - 1 && NameAt(bytes, rest[k], end) == last
    ensures forall k :: 0 <= k < |starts| ==> RecordAt(bytes, starts[k], end)
    ensures var last := NameAt(bytes, starts[|starts| - 1], end);
            last in names || exists k :: 0 <= k < |starts| - 1 && NameAt(bytes, starts[k], end) == last
  {
    assert forall k :: 0 < k < |starts| ==> starts[k] == rest[k - 1];
    var last := NameAt(bytes, rest[|rest| - 1], end);
    if last == NameAt(bytes, offset, end) {
      assert NameAt(bytes, starts[0], end) == last;
    } else if last !in names {
      var k :| 0 <= k < |rest| - 1 && NameAt(bytes, rest[k], end) == last;
      assert NameAt(bytes, starts[k + 1], end) == last;
    }
  }

  lemma RepeatBehind(bytes: seq<Byte>, offset: nat, end: nat, count: nat, names: set<seq<Byte>>, starts: seq<nat>)
    requires Repeats(bytes, offset, end, count, names, starts) && |starts| > 1
    ensures RecordAt(bytes, offset, end) && NameAt(bytes, offset, end) !in names
    ensures Repeats(bytes, NextRecord(bytes, offset), end, count - 1, names + {NameAt(bytes, offset, end)}, starts[1..])
  {
    assert RecordAt(bytes, starts[0], end);
    var rest := starts[1..];
    assert starts[..|starts| - 1][0] == offset;
    assert forall k :: 0 <= k < |rest| ==> rest[k] == starts[k + 1];
    assert forall k :: 0 <= k < |rest| - 1 ==> starts[..|starts| - 1][k + 1] == rest[k];
    RepeatGoesOn(bytes, offset, end, names, rest, starts);
  }

  lemma {:induction false} RepeatRefused(bytes: seq<Byte>, offset: nat, end: nat, count: nat, names: set<seq<Byte>>, starts: seq<nat>)
    requires end <= |bytes| && Repeats(bytes, offset, end, count, names, starts)
    ensures Walk(bytes, offset, end, count, names) == DuplicatePath
    decreases count
  {
    assert RecordAt(bytes, starts[0], end);
    if |starts| > 1 {
      RepeatBehind(bytes, offset, end, count, names, starts);
      RepeatRefused(bytes, NextRecord(bytes, offset), end, count - 1, names + {NameAt(bytes, offset, end)}, starts[1..]);
    }
  }

  lemma RepeatGoesOn(bytes: seq<Byte>, offset: nat, end: nat, names: set<seq<Byte>>, rest: seq<nat>, starts: seq<nat>)
    requires rest != [] && starts == [offset] + rest
    requires forall k :: 0 <= k < |starts| ==> RecordAt(bytes, starts[k], end)
    requires var last := NameAt(bytes, starts[|starts| - 1], end);
             last in names || exists k :: 0 <= k < |starts| - 1 && NameAt(bytes, starts[k], end) == last
    ensures RecordAt(bytes, offset, end) && forall k :: 0 <= k < |rest| ==> RecordAt(bytes, rest[k], end)
    ensures var last := NameAt(bytes, rest[|rest| - 1], end);
            last in names + {NameAt(bytes, offset, end)}
            || exists k :: 0 <= k < |rest| - 1 && NameAt(bytes, rest[k], end) == last
  {
    assert starts[0] == offset;
    assert forall k :: 0 <= k < |rest| ==> rest[k] == starts[k + 1];
    var last := NameAt(bytes, starts[|starts| - 1], end);
    if last !in names {
      var k :| 0 <= k < |starts| - 1 && NameAt(bytes, starts[k], end) == last;
      assert k > 0 ==> NameAt(bytes, rest[k - 1], end) == last;
    }
  }

  /** A repeated name is reported exactly when, inside an envelope that fits,
      the records read in order reach one whose name an earlier one had. */
  lemma ReportsExactlyRepeats(bytes: seq<Byte>, limit: nat, end: nat)
    requires IsLastEnd(bytes, end)
    ensures Validated(bytes, limit, end) == DuplicatePath <==>
              && Count(bytes, end) <= limit
              && EnvelopeFits(bytes, end)
              && exists starts :: Repeats(bytes, Start(bytes, end), end, Count(bytes, end), {}, starts)
  {
    var offset, count := Start(bytes, end), Count(bytes, end);
    if Validated(bytes, limit, end) == DuplicatePath {
      var starts := RepeatFound(bytes, offset, end, count, {});
    }
    forall starts | Repeats(bytes, offset, end, count, {}, starts)
      ensures Walk(bytes, offset, end, count, {}) == DuplicatePath
    {
      RepeatRefused(bytes, offset, end, count, {}, starts);
    }
  }
}
