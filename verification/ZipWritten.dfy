/** ZIP packages spelled out: a package written field by field, little-endian,
    and what the directory check makes of it. */
module ZipWritten {
  import opened Bytes
  import opened Options
  import opened ZipDirectory

  function Little2(n: nat): (r: seq<Byte>)
    requires n < 65536
    ensures |r| == 2
  {
    [(n % 256) as Byte, (n / 256) as Byte]
  }

  function Little4(n: nat): (r: seq<Byte>)
    requires n < 0x1_0000_0000
    ensures |r| == 4
  {
    Little2(n % 65536) + Little2(n / 65536)
  }

  /** A record of the central directory; `made` and `where` are the fields the
      check does not look at. */
  datatype Record = Record(made: seq<Byte>, name: seq<Byte>, extra: seq<Byte>, comment: seq<Byte>, where: seq<Byte>)

  predicate ValidRecord(r: Record) {
    |r.made| == 24 && |r.where| == 12 && |r.name| < 65536 && |r.extra| < 65536 && |r.comment| < 65536
  }

  function RecordText(r: Record): (text: seq<Byte>)
    requires ValidRecord(r)
    ensures |text| == 46 + |r.name| + |r.extra| + |r.comment|
  {
    [0x50, 0x4b, 1, 2] + r.made + (Little2(|r.name|) + Little2(|r.extra|) + Little2(|r.comment|)) + r.where
    + r.name + r.extra + r.comment
  }

  predicate ValidRecords(records: seq<Record>) {
    forall i :: 0 <= i < |records| ==> ValidRecord(records[i])
  }

  function RecordsText(records: seq<Record>): seq<Byte>
    requires ValidRecords(records)
  {
    if records == [] then [] else RecordText(records[0]) + RecordsText(records[1..])
  }

  /** The end record: disk numbers zero, the count twice, the size and the
      place of the directory, and the package's comment. */
  function EndText(count: nat, size: nat, offset: nat, comment: seq<Byte>): seq<Byte>
    requires count < 65536 && size < 0x1_0000_0000 && offset < 0x1_0000_0000 && |comment| < 65536
  {
    [0x50, 0x4b, 5, 6] + [0, 0, 0, 0] + Little2(count) + Little2(count) + Little4(size) + Little4(offset)
    + Little2(|comment|) + comment
  }

  predicate Fitting(front: seq<Byte>, records: seq<Record>, comment: seq<Byte>) {
    && ValidRecords(records) && |records| < 65536 && |comment| < 65536
    && |front| < 0x1_0000_0000 && |RecordsText(records)| < 0x1_0000_0000
  }

  function Package(front: seq<Byte>, records: seq<Record>, comment: seq<Byte>): seq<Byte>
    requires Fitting(front, records, comment)
  {
    front + RecordsText(records) + EndText(|records|, |RecordsText(records)|, |front|, comment)
  }

  // ------------------------------------------------------------- reading

  lemma Little2Reads(n: nat, bytes: seq<Byte>, at: nat)
    requires n < 65536 && at + 2 <= |bytes| && bytes[at..at + 2] == Little2(n)
    ensures Read16(bytes, at) == n
  {
    assert bytes[at] == bytes[at..at + 2][0] && bytes[at + 1] == bytes[at..at + 2][1];
  }

  lemma Little4Reads(n: nat, bytes: seq<Byte>, at: nat)
    requires n < 0x1_0000_0000 && at + 4 <= |bytes| && bytes[at..at + 4] == Little4(n)
    ensures Read32(bytes, at) == n
  {
    assert bytes[at..at + 2] == bytes[at..at + 4][..2] && bytes[at + 2..at + 4] == bytes[at..at + 4][2..];
    Little2Reads(n % 65536, bytes, at);
    Little2Reads(n / 65536, bytes, at + 2);
  }

  lemma SliceWithin(bytes: seq<Byte>, offset: nat, text: seq<Byte>, a: nat, b: nat)
    requires offset + |text| <= |bytes| && bytes[offset..offset + |text|] == text && a <= b <= |text|
    ensures bytes[offset + a..offset + b] == text[a..b]
  {
    forall k | 0 <= k < b - a ensures bytes[offset + a..offset + b][k] == text[a..b][k] {
      assert bytes[offset..offset + |text|][a + k] == bytes[offset + a + k];
    }
  }

  lemma RecordLayout(r: Record)
    requires ValidRecord(r)
    ensures var t := RecordText(r);
            && t[0..4] == [0x50, 0x4b, 1, 2]
            && t[28..30] == Little2(|r.name|) && t[30..32] == Little2(|r.extra|) && t[32..34] == Little2(|r.comment|)
            && t[46..46 + |r.name|] == r.name
  {
  }

  lemma EndLayout(count: nat, size: nat, offset: nat, comment: seq<Byte>)
    requires count < 65536 && size < 0x1_0000_0000 && offset < 0x1_0000_0000 && |comment| < 65536
    ensures var t := EndText(count, size, offset, comment);
            && |t| == 22 + |comment|
            && t[0..4] == [0x50, 0x4b, 5, 6] && t[4..6] == [0, 0] && t[6..8] == [0, 0]
            && t[8..10] == Little2(count) && t[10..12] == Little2(count)
            && t[12..16] == Little4(size) && t[16..20] == Little4(offset) && t[20..22] == Little2(|comment|)
  {
  }

  /** A record that was written is read where it was written. */
  lemma RecordReads(bytes: seq<Byte>, offset: nat, end: nat, r: Record)
    requires ValidRecord(r) && offset + |RecordText(r)| <= end <= |bytes|
    requires bytes[offset..offset + |RecordText(r)|] == RecordText(r)
    ensures RecordAt(bytes, offset, end)
    ensures NextRecord(bytes, offset) == offset + |RecordText(r)| && NameAt(bytes, offset, end) == r.name
  {
    var t := RecordText(r);
    RecordLayout(r);
    SliceWithin(bytes, offset, t, 0, 4);
    SliceWithin(bytes, offset, t, 28, 30);
    SliceWithin(bytes, offset, t, 30, 32);
    SliceWithin(bytes, offset, t, 32, 34);
    SliceWithin(bytes, offset, t, 46, 46 + |r.name|);
    Little2Reads(|r.name|, bytes, offset + 28);
    Little2Reads(|r.extra|, bytes, offset + 30);
    Little2Reads(|r.comment|, bytes, offset + 32);
  }

  /** The first record that repeats a name decides. */
  predicate NewNames(records: seq<Record>, names: set<seq<Byte>>) {
    && (forall i :: 0 <= i < |records| ==> records[i].name !in names)
    && (forall i, j :: 0 <= i < j < |records| ==> records[i].name != records[j].name)
  }

  lemma NewNamesStep(records: seq<Record>, names: set<seq<Byte>>)
    requires records != []
    ensures NewNames(records, names) <==> records[0].name !in names && NewNames(records[1..], names + {records[0].name})
  {
    var rest := records[1..];
    assert forall i :: 0 <= i < |rest| ==> rest[i] == records[i + 1];
    if records[0].name !in names && NewNames(rest, names + {records[0].name}) {
      forall i | 0 <= i < |records| ensures records[i].name !in names {
        assert i > 0 ==> records[i] == rest[i - 1];
      }
      forall i, j | 0 <= i < j < |records| ensures records[i].name != records[j].name {
        assert records[j] == rest[j - 1];
        assert i > 0 ==> records[i] == rest[i - 1];
      }
    }
  }

  /** Records with these names stand from `offset` to `end`. */
  predicate StandsAt(bytes: seq<Byte>, offset: nat, end: nat, records: seq<Record>)
    requires end <= |bytes|
    decreases |records|
  {
    if records == [] then offset == end
    else
      && RecordAt(bytes, offset, end) && NameAt(bytes, offset, end) == records[0].name
      && StandsAt(bytes, NextRecord(bytes, offset), end, records[1..])
  }

  lemma {:induction false} RecordsStand(bytes: seq<Byte>, offset: nat, end: nat, records: seq<Record>)
    requires ValidRecords(records) && offset + |RecordsText(records)| == end <= |bytes|
    requires bytes[offset..end] == RecordsText(records)
    ensures StandsAt(bytes, offset, end, records)
    decreases |records|
  {
    if records != [] {
      HeadAndRest(bytes, offset, end, RecordText(records[0]), RecordsText(records[1..]));
      RecordReads(bytes, offset, end, records[0]);
      RecordsStand(bytes, NextRecord(bytes, offset), end, records[1..]);
    }
  }

  lemma {:induction false} StandingWalk(bytes: seq<Byte>, offset: nat, end: nat, records: seq<Record>, names: set<seq<Byte>>)
    requires end <= |bytes| && StandsAt(bytes, offset, end, records)
    ensures Walk(bytes, offset, end, |records|, names) == if NewNames(records, names) then Valid else DuplicatePath
    decreases |records|
  {
    if records != [] {
      StandingWalk(bytes, NextRecord(bytes, offset), end, records[1..], names + {records[0].name});
      NewNamesStep(records, names);
    }
  }

  lemma HeadAndRest(bytes: seq<Byte>, offset: nat, end: nat, head: seq<Byte>, rest: seq<Byte>)
    requires offset + |head| + |rest| == end <= |bytes| && bytes[offset..end] == head + rest
    ensures bytes[offset..offset + |head|] == head && bytes[offset + |head|..end] == rest
  {
    assert bytes[offset..offset + |head|] == bytes[offset..end][..|head|];
    assert bytes[offset + |head|..end] == bytes[offset..end][|head|..];
  }

  /** Where the end record of a written package stands. */
  function EndOf(front: seq<Byte>, records: seq<Record>): nat
    requires ValidRecords(records)
  {
    |front| + |RecordsText(records)|
  }

  lemma PackageLayout(front: seq<Byte>, records: seq<Record>, comment: seq<Byte>)
    requires Fitting(front, records, comment)
    ensures var bytes, end := Package(front, records, comment), EndOf(front, records);
            && |bytes| == end + 22 + |comment|
            && bytes[|front|..end] == RecordsText(records)
            && bytes[end..|bytes|] == EndText(|records|, |RecordsText(records)|, |front|, comment)
  {
    EndLayout(|records|, |RecordsText(records)|, |front|, comment);
  }

  lemma CountsRead(bytes: seq<Byte>, end: nat, count: nat, size: nat, offset: nat, comment: seq<Byte>)
    requires count < 65536 && size < 0x1_0000_0000 && offset < 0x1_0000_0000 && |comment| < 65536
    requires end + 22 + |comment| == |bytes| && bytes[end..|bytes|] == EndText(count, size, offset, comment)
    ensures Read16(bytes, end + 4) == 0 && Read16(bytes, end + 6) == 0
    ensures Read16(bytes, end + 8) == count && Read16(bytes, end + 10) == count
  {
    var t := EndText(count, size, offset, comment);
    EndLayout(count, size, offset, comment);
    SliceWithin(bytes, end, t, 4, 6);
    SliceWithin(bytes, end, t, 6, 8);
    SliceWithin(bytes, end, t, 8, 10);
    SliceWithin(bytes, end, t, 10, 12);
    Little2Reads(0, bytes, end + 4);
    Little2Reads(0, bytes, end + 6);
    Little2Reads(count, bytes, end + 8);
    Little2Reads(count, bytes, end + 10);
  }

  lemma PlacesRead(bytes: seq<Byte>, end: nat, count: nat, size: nat, offset: nat, comment: seq<Byte>)
    requires count < 65536 && size < 0x1_0000_0000 && offset < 0x1_0000_0000 && |comment| < 65536
    requires end + 22 + |comment| == |bytes| && bytes[end..|bytes|] == EndText(count, size, offset, comment)
    ensures bytes[end..end + 4] == [0x50, 0x4b, 5, 6]
    ensures Read32(bytes, end + 12) == size && Read32(bytes, end + 16) == offset
    ensures Read16(bytes, end + 20) == |comment|
  {
    var t := EndText(count, size, offset, comment);
    EndLayout(count, size, offset, comment);
    SliceWithin(bytes, end, t, 0, 4);
    SliceWithin(bytes, end, t, 12, 16);
    SliceWithin(bytes, end, t, 16, 20);
    SliceWithin(bytes, end, t, 20, 22);
    Little4Reads(size, bytes, end + 12);
    Little4Reads(offset, bytes, end + 16);
    Little2Reads(|comment|, bytes, end + 20);
  }

  /** The end record's fields read back as they were written. */
  lemma EndReads(front: seq<Byte>, records: seq<Record>, comment: seq<Byte>)
    requires Fitting(front, records, comment)
    ensures var bytes, end := Package(front, records, comment), EndOf(front, records);
            && EndsAt(bytes, end) && EnvelopeFits(bytes, end)
            && Count(bytes, end) == |records| && Start(bytes, end) == |front|
  {
    var bytes, end := Package(front, records, comment), EndOf(front, records);
    PackageLayout(front, records, comment);
    CountsRead(bytes, end, |records|, |RecordsText(records)|, |front|, comment);
    PlacesRead(bytes, end, |records|, |RecordsText(records)|, |front|, comment);
  }

  /** A written package whose comment does not itself look like an end record:
      the check finds its end record, and accepts it exactly when it has no
      more entries than allowed and names no path twice. */
  lemma WrittenPackageIsChecked(front: seq<Byte>, records: seq<Record>, comment: seq<Byte>, limit: nat)
    requires Fitting(front, records, comment)
    requires var bytes := Package(front, records, comment);
             forall j: nat :: EndOf(front, records) < j < |bytes| ==> !EndsAt(bytes, j)
    ensures var bytes, end := Package(front, records, comment), EndOf(front, records);
            && IsLastEnd(bytes, end)
            && Validated(bytes, limit, end) ==
               if |records| > limit then EntryLimit else if NewNames(records, {}) then Valid else DuplicatePath
  {
    PackageLayout(front, records, comment);
    EndReads(front, records, comment);
    RecordsStand(Package(front, records, comment), |front|, EndOf(front, records), records);
    StandingWalk(Package(front, records, comment), |front|, EndOf(front, records), records, {});
  }
}
