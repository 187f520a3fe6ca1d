/** Extracting a ZIP package under a limit on what it may expand to. The
    limit counts what the members really hand out, not what they declare. */
module ZipExtraction {
  import opened Bytes
  import opened Options

  /** One member, as the archive reader hands it out: its declared size, the
      chunks read from it, and whether reading ends well behind them. */
  datatype Member = Member(
    name: string,
    properPath: bool,
    isLink: bool,
    isDirectory: bool,
    declared: nat,
    chunks: seq<seq<Byte>>,
    readable: bool)

  datatype Refusal = InvalidPath | SymbolicLink | ExpandedLimit | ReadFailure

  datatype Extraction = Files(files: map<string, seq<Byte>>) | Refused(why: Refusal)

  function Content(chunks: seq<seq<Byte>>): seq<Byte> {
    if chunks == [] then [] else chunks[0] + Content(chunks[1..])
  }

  /** What a member adds to the package: a directory adds nothing. */
  function Size(m: Member): nat {
    if m.isDirectory then 0 else |Content(m.chunks)|
  }

  function Expanded(members: seq<Member>): nat {
    if members == [] then 0 else Expanded(members[..|members| - 1]) + Size(members[|members| - 1])
  }

  /** The files of a package, later members replacing earlier namesakes. */
  function FilesOf(members: seq<Member>): map<string, seq<Byte>> {
    if members == [] then map[]
    else
      var files, m := FilesOf(members[..|members| - 1]), members[|members| - 1];
      if m.isDirectory then files else files[m.name := Content(m.chunks)]
  }

  /** Why `m` is refused when `total` bytes were extracted before it. */
  function Problem(m: Member, total: nat, limit: nat): (why: Option<Refusal>)
    requires total <= limit
  {
    if !m.properPath then Some(InvalidPath)
    else if m.isLink then Some(SymbolicLink)
    else if m.isDirectory then None
    else if m.declared > limit - total || total + Size(m) > limit then Some(ExpandedLimit)
    else if !m.readable then Some(ReadFailure)
    else None
  }

  /** Nothing about member `i` is wrong, counting all the bytes before it. */
  predicate Fits(members: seq<Member>, i: nat, limit: nat)
    requires i < |members|
  {
    Expanded(members[..i]) <= limit && Problem(members[i], Expanded(members[..i]), limit).None?
  }

  lemma ExpandedSnoc(members: seq<Member>, i: nat)
    requires i < |members|
    ensures Expanded(members[..i + 1]) == Expanded(members[..i]) + Size(members[i])
    ensures FilesOf(members[..i + 1]) ==
            if members[i].isDirectory then FilesOf(members[..i])
            else FilesOf(members[..i])[members[i].name := Content(members[i].chunks)]
  {
    assert members[..i + 1][..i] == members[..i];
  }

  /** Reads one member chunk by chunk, giving up as soon as the package is
      over its limit. */
  method ReadMember(m: Member, before: nat, limit: nat) returns (total: nat, data: seq<Byte>, refused: bool)
    requires before <= limit
    ensures refused <==> before + |Content(m.chunks)| > limit
    ensures !refused ==> data == Content(m.chunks) && total == before + |data| && total <= limit
    ensures |data| <= limit - before
  {
    total, data := before, [];
    for i := 0 to |m.chunks|
      invariant Content(m.chunks) == data + Content(m.chunks[i..])
      invariant total == before + |data| && total <= limit
    {
      assert m.chunks[i..][1..] == m.chunks[i + 1..];
      total := total + |m.chunks[i]|;
      if total > limit {
        return total, data, true;
      }
      data := data + m.chunks[i];
    }
    refused := false;
  }

  method Extract(members: seq<Member>, limit: nat) returns (r: Extraction)
    ensures r.Files? <==> forall i :: 0 <= i < |members| ==> Fits(members, i, limit)
    ensures r.Files? ==> r.files == FilesOf(members) && Expanded(members) <= limit
    ensures r.Refused? ==> exists i :: 0 <= i < |members| && Expanded(members[..i]) <= limit
                                    && Problem(members[i], Expanded(members[..i]), limit) == Some(r.why)
                                    && forall j :: 0 <= j < i ==> Fits(members, j, limit)
  {
    var files: map<string, seq<Byte>> := map[];
    var total: nat := 0;
    for i := 0 to |members|
      invariant total == Expanded(members[..i]) && total <= limit && files == FilesOf(members[..i])
      invariant forall j :: 0 <= j < i ==> Fits(members, j, limit)
    {
      var m := members[i];
      ghost var problem := Problem(m, total, limit);
      ExpandedSnoc(members, i);
      if !m.properPath {
        assert !Fits(members, i, limit) && problem == Some(InvalidPath);
        return Refused(InvalidPath);
      }
      if m.isLink {
        assert !Fits(members, i, limit) && problem == Some(SymbolicLink);
        return Refused(SymbolicLink);
      }
      if m.isDirectory {
        continue;
      }
      if m.declared > limit - total {
        assert !Fits(members, i, limit) && problem == Some(ExpandedLimit);
        return Refused(ExpandedLimit);
      }
      var after, data, over := ReadMember(m, total, limit);
      if over {
        assert !Fits(members, i, limit) && problem == Some(ExpandedLimit);
        return Refused(ExpandedLimit);
      }
      if !m.readable {
        assert !Fits(members, i, limit) && problem == Some(ReadFailure);
        return Refused(ReadFailure);
      }
      total := after;
      files := files[m.name := data];
    }
    assert members[..|members|] == members;
    return Files(files);
  }

  lemma {:induction false} ExpandedRises(members: seq<Member>, i: nat)
    requires i <= |members|
    ensures Expanded(members[..i]) <= Expanded(members)
    decreases |members|
  {
    if i == |members| {
      assert members[..i] == members;
    } else {
      var init := members[..|members| - 1];
      assert init[..i] == members[..i];
      ExpandedRises(init, i);
    }
  }

  /** What member `i` must be besides small enough: its declared size may
      refuse it, and never lets it in. */
  predicate Welcome(members: seq<Member>, i: nat, limit: nat)
    requires i < |members|
  {
    var m := members[i];
    m.properPath && !m.isLink && (m.isDirectory || (m.declared <= limit - Expanded(members[..i]) && m.readable))
  }

  lemma MemberFits(members: seq<Member>, i: nat, limit: nat)
    requires i < |members|
    ensures Fits(members, i, limit) ==> Welcome(members, i, limit) && Expanded(members[..i + 1]) <= limit
    ensures Expanded(members) <= limit && Welcome(members, i, limit) ==> Fits(members, i, limit)
  {
    ExpandedSnoc(members, i);
    ExpandedRises(members, i + 1);
  }

  /** The running count is a bound on the whole: a package is extracted exactly
      when what its members really hand out is within the limit together, and
      each of them is welcome where it stands. */
  lemma FitsExactlyWithinTheLimit(members: seq<Member>, limit: nat)
    ensures (forall i :: 0 <= i < |members| ==> Fits(members, i, limit)) <==>
              Expanded(members) <= limit && forall i :: 0 <= i < |members| ==> Welcome(members, i, limit)
  {
    if forall i :: 0 <= i < |members| ==> Fits(members, i, limit) {
      forall i | 0 <= i < |members| ensures Welcome(members, i, limit) {
        MemberFits(members, i, limit);
      }
      if members != [] {
        MemberFits(members, |members| - 1, limit);
        assert members[..|members|] == members;
      }
    }
    if Expanded(members) <= limit && forall i :: 0 <= i < |members| ==> Welcome(members, i, limit) {
      forall i | 0 <= i < |members| ensures Fits(members, i, limit) {
        MemberFits(members, i, limit);
      }
    }
  }

  /** Where names are distinct, every file is its member's content, whole. */
  lemma {:induction false} EveryFileIsWhole(members: seq<Member>, i: nat)
    requires i < |members| && !members[i].isDirectory
    requires forall j, k :: 0 <= j < k < |members| ==> members[j].name != members[k].name
    ensures members[i].name in FilesOf(members) && FilesOf(members)[members[i].name] == Content(members[i].chunks)
    decreases |members|
  {
    if i < |members| - 1 {
      EveryFileIsWhole(members[..|members| - 1], i);
    }
  }
}
