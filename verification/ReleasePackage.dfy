/**
 * Building and verifying release archives (package.py). Compressing an archive and writing the
 * manifest as JSON are functions with an inverse; SHA-256 loses nothing of what it digests.
 */
module ReleasePackage {
  import opened Text
  import opened ReleasePaths
  import opened Bytes

  const MANIFEST := "RELEASE-MANIFEST.json"
  const MAX_FILE_BYTES := 64 * 1024 * 1024
  const MAX_TOTAL_BYTES := 512 * 1024 * 1024
  const MAX_MANIFEST_BYTES := 4 * 1024 * 1024
  const MAX_RECORDS := 20000

  /** A checksum as written in lower case: of some content, some other digest, or no digest at all. */
  datatype Checksum = Sha256(content: Bytes) | OtherDigest(hex: string) | Malformed(text: string)

  datatype Record = NotAnObject | Record(path: string, size: Option<int>, checksum: Checksum)

  datatype Manifest = Manifest(schemaVersion: int, target: string, sourceCommit: string,
                               files: Option<seq<Record>>, fileCount: Option<int>, totalBytes: Option<int>)

  /** A member with the size of its header; a corrupt one has no content. */
  datatype Member = Member(name: string, link: bool, size: int, content: Option<Bytes>)

  datatype Formats = Formats(
    pack: seq<Member> -> Bytes, unpack: Bytes -> Option<seq<Member>>,
    write: Manifest -> Bytes, parse: Bytes -> Option<Manifest>)

  datatype Sidecar = NoSidecar | Sidecar(tooLarge: bool, checksum: Checksum)

  datatype Archive = Archive(bytes: Bytes, sidecar: Sidecar)

  datatype Error =
    | ArchiveTooLarge | SidecarTooLarge | SidecarMalformed | SidecarMismatch | NotAZip
    | DuplicateMembers | UnsafeMember | ManifestMissing | ManifestTooLarge | ManifestLink | ManifestInvalid
    | NoInventory | Unsupported | InvalidRevision | InvalidRecord | DuplicateRecord | InvalidSize
    | FileTooLarge | TotalTooLarge | InvalidChecksum | MemberMissing | MemberLink | SizeMismatch
    | MemberCorrupt | ChecksumMismatch | InventoriesDiffer | InvalidTotals | WrongFileCount | WrongByteCount
    | UnsupportedTarget | NoSources | RequiredMissing

  datatype Result<T> = Ok(value: T) | Err(error: Error)

  // ------------------------------------------------------------------------------------------
  // Members
  // ------------------------------------------------------------------------------------------

  /** The last member of a name. */
  function Find(members: seq<Member>, name: string): (m: Option<Member>)
    ensures m.Some? ==> m.value in members && m.value.name == name
    ensures m.None? <==> forall x :: x in members ==> x.name != name
  {
    if members == [] then None
    else if members[|members| - 1].name == name then Some(members[|members| - 1])
    else Find(members[..|members| - 1], name)
  }

  function Names(members: seq<Member>): set<string> {
    set m | m in members :: m.name
  }

  predicate DistinctNames(members: seq<Member>) {
    forall i, j :: 0 <= i < j < |members| ==> members[i].name != members[j].name
  }

  /** What an archive has at a relative path. */
  datatype Entry = Unsafe | Missing | Stored(member: Member, directory: bool)

  type Lookup = string -> Entry

  function EntryAt(members: seq<Member>, path: string): Entry {
    var name := MemberName(path);
    if !IsArchiveName(name) then Unsafe
    else
      match Find(members, name)
      case None => Missing
      case Some(m) => Stored(m, IsDirectory(name))
  }

  function LookupIn(members: seq<Member>): Lookup {
    path => EntryAt(members, path)
  }

  // ------------------------------------------------------------------------------------------
  // The records of the manifest
  // ------------------------------------------------------------------------------------------

  /** The paths seen and the bytes verified. */
  datatype Progress = Progress(paths: set<string>, bytes: int)

  function CheckRecord(lookup: Lookup, p: Progress, r: Record): Result<Progress> {
    if r.NotAnObject? then Err(InvalidRecord)
    else if r.path in p.paths then Err(DuplicateRecord)
    else
      var entry := lookup(r.path);
      if entry.Unsafe? then Err(UnsafeMember)
      else if r.size.None? then Err(InvalidSize)
      else if r.size.value < 0 || r.size.value > MAX_FILE_BYTES then Err(FileTooLarge)
      else if p.bytes + r.size.value > MAX_TOTAL_BYTES then Err(TotalTooLarge)
      else if r.checksum.Malformed? then Err(InvalidChecksum)
      else if entry.Missing? then Err(MemberMissing)
      else if entry.member.link then Err(MemberLink)
      else if entry.directory || entry.member.size != r.size.value then Err(SizeMismatch)
      else if entry.member.content.None? then Err(MemberCorrupt)
      else if |entry.member.content.value| != r.size.value || Sha256(entry.member.content.value) != r.checksum
      then Err(ChecksumMismatch)
      else Ok(Progress(p.paths + {r.path}, p.bytes + |entry.member.content.value|))
  }

  function CheckRecords(lookup: Lookup, records: seq<Record>): Result<Progress> {
    if records == [] then Ok(Progress({}, 0))
    else
      match CheckRecords(lookup, records[..|records| - 1])
      case Err(e) => Err(e)
      case Ok(p) => CheckRecord(lookup, p, records[|records| - 1])
  }

  lemma {:induction false} ErrorStays(lookup: Lookup, records: seq<Record>, n: nat)
    requires n <= |records| && CheckRecords(lookup, records[..n]).Err?
    ensures CheckRecords(lookup, records) == CheckRecords(lookup, records[..n])
  {
    if n < |records| {
      assert records[..|records| - 1][..n] == records[..n];
      ErrorStays(lookup, records[..|records| - 1], n);
    } else {
      assert records[..n] == records;
    }
  }

  function MemberNames(paths: set<string>): set<string> {
    set p | p in paths :: MemberName(p)
  }

  /** The loop over the records, with the expected members, the paths seen and the bytes verified. */
  method VerifyRecords(lookup: Lookup, records: seq<Record>) returns (r: Result<Progress>, expected: set<string>)
    ensures r == CheckRecords(lookup, records)
    ensures r.Ok? ==> expected == {MemberName(MANIFEST)} + MemberNames(r.value.paths)
  {
    var paths: set<string> := {};
    var bytes := 0;
    expected := {MemberName(MANIFEST)};
    assert records[..0] == [];
    for i := 0 to |records|
      invariant CheckRecords(lookup, records[..i]) == Ok(Progress(paths, bytes))
      invariant expected == {MemberName(MANIFEST)} + MemberNames(paths)
    {
      assert records[..i + 1][..i] == records[..i];
      r := CheckRecord(lookup, Progress(paths, bytes), records[i]);
      if r.Err? {
        ErrorStays(lookup, records, i + 1);
        return;
      }
      expected := expected + {MemberName(records[i].path)};
      paths, bytes := r.value.paths, r.value.bytes;
    }
    assert records[..|records|] == records;
    r := Ok(Progress(paths, bytes));
  }

  // ------------------------------------------------------------------------------------------
  // Verifying
  // ------------------------------------------------------------------------------------------

  predicate IsTarget(target: string) {
    target == "windows" || target == "compose"
  }

  predicate IsRevision(commit: string) {
    |commit| == 40 && forall i :: 0 <= i < 40 ==> IsDigit(Lower(commit)[i]) || 'a' <= Lower(commit)[i] <= 'f'
  }

  function CheckArchive(archive: Archive): Option<Error> {
    if |archive.bytes| > MAX_TOTAL_BYTES then Some(ArchiveTooLarge)
    else if archive.sidecar.NoSidecar? then None
    else if archive.sidecar.tooLarge then Some(SidecarTooLarge)
    else if archive.sidecar.checksum.Malformed? then Some(SidecarMalformed)
    else if archive.sidecar.checksum != Sha256(archive.bytes) then Some(SidecarMismatch)
    else None
  }

  /** Names without duplicates and inside the root, and a manifest that can be read. */
  function ReadManifest(formats: Formats, members: seq<Member>): Result<Manifest> {
    if !DistinctNames(members) then Err(DuplicateMembers)
    else if exists m :: m in members && !IsArchiveName(m.name) then Err(UnsafeMember)
    else
      match Find(members, MemberName(MANIFEST))
      case None => Err(ManifestMissing)
      case Some(m) =>
        if m.size > MAX_MANIFEST_BYTES then Err(ManifestTooLarge)
        else if m.link then Err(ManifestLink)
        else if m.content.None? then Err(MemberCorrupt)
        else if formats.parse(m.content.value).None? then Err(ManifestInvalid)
        else Ok(formats.parse(m.content.value).value)
  }

  function CheckManifest(m: Manifest): Option<Error> {
    if m.files.None? || m.files.value == [] || |m.files.value| > MAX_RECORDS then Some(NoInventory)
    else if m.schemaVersion != 1 || !IsTarget(m.target) then Some(Unsupported)
    else if !IsRevision(m.sourceCommit) then Some(InvalidRevision)
    else None
  }

  function CheckTotals(m: Manifest, names: set<string>, p: Progress, count: nat): Option<Error> {
    if names != {MemberName(MANIFEST)} + MemberNames(p.paths) then Some(InventoriesDiffer)
    else if m.fileCount.None? || m.totalBytes.None? then Some(InvalidTotals)
    else if m.fileCount.value != count then Some(WrongFileCount)
    else if m.totalBytes.value != p.bytes then Some(WrongByteCount)
    else None
  }

  /** What verification reports. */
  datatype Report = Report(target: string, sourceCommit: string, fileCount: nat, totalBytes: int)

  function VerifyMembers(formats: Formats, members: seq<Member>): Result<Report> {
    match ReadManifest(formats, members)
    case Err(e) => Err(e)
    case Ok(m) =>
      if CheckManifest(m).Some? then Err(CheckManifest(m).value)
      else
        match CheckRecords(LookupIn(members), m.files.value)
        case Err(e) => Err(e)
        case Ok(p) =>
          var totals := CheckTotals(m, Names(members), p, |m.files.value|);
          if totals.Some? then Err(totals.value) else Ok(Report(m.target, m.sourceCommit, |m.files.value|, p.bytes))
  }

  function Verify(formats: Formats, archive: Archive): Result<Report> {
    if CheckArchive(archive).Some? then Err(CheckArchive(archive).value)
    else if formats.unpack(archive.bytes).None? then Err(NotAZip)
    else VerifyMembers(formats, formats.unpack(archive.bytes).value)
  }

  method VerifyPackage(formats: Formats, archive: Archive) returns (r: Result<Report>)
    ensures r == Verify(formats, archive)
  {
    if CheckArchive(archive).Some? {
      return Err(CheckArchive(archive).value);
    }
    var unpacked := formats.unpack(archive.bytes);
    if unpacked.None? {
      return Err(NotAZip);
    }
    r := VerifyUnpacked(formats, unpacked.value);
  }

  method VerifyUnpacked(formats: Formats, members: seq<Member>) returns (r: Result<Report>)
    ensures r == VerifyMembers(formats, members)
  {
    var manifest := ReadManifest(formats, members);
    if manifest.Err? {
      return Err(manifest.error);
    }
    var m := manifest.value;
    if CheckManifest(m).Some? {
      return Err(CheckManifest(m).value);
    }
    var checked, expected := VerifyRecords(LookupIn(members), m.files.value);
    if checked.Err? {
      return Err(checked.error);
    }
    if Names(members) != expected {
      return Err(InventoriesDiffer);
    }
    var totals := CheckTotals(m, Names(members), checked.value, |m.files.value|);
    r := if totals.Some? then Err(totals.value)
         else Ok(Report(m.target, m.sourceCommit, |m.files.value|, checked.value.bytes));
  }

  // ------------------------------------------------------------------------------------------
  // What verification accepts
  // ------------------------------------------------------------------------------------------

  /** The record names a plain file of the archive, of its size and checksum. */
  predicate RecordSound(lookup: Lookup, r: Record) {
    && r.Record? && lookup(r.path).Stored? && !lookup(r.path).directory
    && var m := lookup(r.path).member;
       !m.link && m.content.Some? && r.size == Some(m.size) && m.size == |m.content.value| <= MAX_FILE_BYTES
       && r.checksum == Sha256(m.content.value)
  }

  predicate AllSound(lookup: Lookup, records: seq<Record>) {
    forall i :: 0 <= i < |records| ==> RecordSound(lookup, records[i])
  }

  predicate DistinctPaths(records: seq<Record>) {
    forall i, j :: 0 <= i < j < |records| && records[i].Record? && records[j].Record? ==>
      records[i].path != records[j].path
  }

  function Paths(records: seq<Record>): set<string> {
    set r | r in records && r.Record? :: r.path
  }

  function TotalSize(records: seq<Record>): int {
    if records == [] then 0
    else
      var r := records[|records| - 1];
      TotalSize(records[..|records| - 1]) + if r.Record? && r.size.Some? then r.size.value else 0
  }

  /** The progress over sound records, whatever their order. */
  function ProgressOver(records: seq<Record>): Progress {
    Progress(Paths(records), TotalSize(records))
  }

  lemma RecordIff(lookup: Lookup, p: Progress, r: Record)
    ensures CheckRecord(lookup, p, r).Ok? <==>
              && RecordSound(lookup, r) && r.path !in p.paths
              && p.bytes + r.size.value <= MAX_TOTAL_BYTES
    ensures CheckRecord(lookup, p, r).Ok? ==>
              CheckRecord(lookup, p, r).value == Progress(p.paths + {r.path}, p.bytes + r.size.value)
  {
  }

  lemma PathsAppend(records: seq<Record>, r: Record)
    requires r.Record?
    ensures Paths(records + [r]) == Paths(records) + {r.path}
  {
    assert r in records + [r];
    forall path | path in Paths(records) ensures path in Paths(records + [r]) {
      var x :| x in records && x.Record? && x.path == path;
      assert x in records + [r];
    }
  }

  lemma DistinctAppend(records: seq<Record>, r: Record)
    requires r.Record?
    ensures DistinctPaths(records + [r]) <==> DistinctPaths(records) && r.path !in Paths(records)
  {
    var all := records + [r];
    assert forall i :: 0 <= i < |records| ==> all[i] == records[i];
    if r.path in Paths(records) {
      var x :| x in records && x.Record? && x.path == r.path;
      var i :| 0 <= i < |records| && records[i] == x;
      assert all[i].path == all[|records|].path;
    }
    if DistinctPaths(all) {
      forall i, j | 0 <= i < j < |records| && records[i].Record? && records[j].Record?
        ensures records[i].path != records[j].path
      {
        assert all[i].path != all[j].path;
      }
    }
  }

  lemma {:induction false} SizesNotNegative(lookup: Lookup, records: seq<Record>)
    requires AllSound(lookup, records)
    ensures TotalSize(records) >= 0
  {
    if records != [] {
      SizesNotNegative(lookup, records[..|records| - 1]);
      assert RecordSound(lookup, records[|records| - 1]);
    }
  }

  ghost predicate RecordsSound(lookup: Lookup, records: seq<Record>) {
    AllSound(lookup, records) && DistinctPaths(records) && TotalSize(records) <= MAX_TOTAL_BYTES
  }

  /** The records pass exactly when each is sound, no path occurs twice, and the total is within its limit. */
  lemma {:induction false} RecordsIff(lookup: Lookup, records: seq<Record>)
    ensures CheckRecords(lookup, records).Ok? <==> RecordsSound(lookup, records)
    ensures CheckRecords(lookup, records).Ok? ==> CheckRecords(lookup, records).value == ProgressOver(records)
  {
    if records != [] {
      var init, r := records[..|records| - 1], records[|records| - 1];
      assert records == init + [r];
      RecordsIff(lookup, init);
      if CheckRecords(lookup, init).Ok? {
        RecordIff(lookup, ProgressOver(init), r);
        if r.Record? {
          PathsAppend(init, r);
        }
      }
    }
  }

  predicate HeaderSound(m: Manifest) {
    && m.files.Some? && 1 <= |m.files.value| <= MAX_RECORDS
    && m.schemaVersion == 1 && IsTarget(m.target) && IsRevision(m.sourceCommit)
  }

  ghost predicate TotalsSound(m: Manifest, names: set<string>, records: seq<Record>) {
    && names == {MemberName(MANIFEST)} + MemberNames(Paths(records))
    && m.fileCount == Some(|records|) && m.totalBytes == Some(TotalSize(records))
  }

  /** All that an accepted archive promises about its members and its manifest. */
  ghost predicate IsRelease(formats: Formats, members: seq<Member>, m: Manifest) {
    && ReadManifest(formats, members) == Ok(m) && HeaderSound(m)
    && RecordsSound(LookupIn(members), m.files.value) && TotalsSound(m, Names(members), m.files.value)
  }

  lemma TotalsIff(m: Manifest, names: set<string>, records: seq<Record>)
    ensures CheckTotals(m, names, ProgressOver(records), |records|).None? <==> TotalsSound(m, names, records)
  {
  }

  lemma ReleaseOfManifestIff(formats: Formats, members: seq<Member>, m: Manifest)
    requires ReadManifest(formats, members) == Ok(m)
    ensures VerifyMembers(formats, members).Ok? <==> IsRelease(formats, members, m)
    ensures VerifyMembers(formats, members).Ok? ==>
              VerifyMembers(formats, members).value
              == Report(m.target, m.sourceCommit, |m.files.value|, TotalSize(m.files.value))
  {
    if HeaderSound(m) {
      RecordsIff(LookupIn(members), m.files.value);
      TotalsIff(m, Names(members), m.files.value);
    }
  }

  /** Verification accepts exactly the releases, and reports what their manifest says. */
  lemma ReleaseIff(formats: Formats, members: seq<Member>)
    ensures VerifyMembers(formats, members).Ok? <==> exists m :: IsRelease(formats, members, m)
    ensures VerifyMembers(formats, members).Ok? ==>
              exists m :: IsRelease(formats, members, m)
                && VerifyMembers(formats, members).value
                   == Report(m.target, m.sourceCommit, |m.files.value|, TotalSize(m.files.value))
  {
    var read := ReadManifest(formats, members);
    if read.Ok? {
      ReleaseOfManifestIff(formats, members, read.value);
    }
  }

  /** No duplicates, all inside the root, and a readable manifest. */
  lemma ManifestIff(formats: Formats, members: seq<Member>, m: Manifest)
    ensures ReadManifest(formats, members) == Ok(m) <==>
              && DistinctNames(members) && (forall x :: x in members ==> IsArchiveName(x.name))
              && exists x :: x in members && x.name == MemberName(MANIFEST) && x.size <= MAX_MANIFEST_BYTES && !x.link
                             && x.content.Some? && formats.parse(x.content.value) == Some(m)
  {
    if x :| DistinctNames(members) && x in members && x.name == MemberName(MANIFEST) {
      FoundIsOnly(members, x);
    }
  }

  lemma FoundIsOnly(members: seq<Member>, x: Member)
    requires DistinctNames(members) && x in members
    ensures Find(members, x.name) == Some(x)
  {
    var y := Find(members, x.name).value;
    var i :| 0 <= i < |members| && members[i] == x;
    var j :| 0 <= j < |members| && members[j] == y;
    assert i < j || j < i || i == j;
  }

  /** What is at a listed path is the file whose checksum the record has. */
  lemma ListedContent(formats: Formats, members: seq<Member>, m: Manifest, r: Record)
    requires IsRelease(formats, members, m) && r in m.files.value
    ensures RecordSound(LookupIn(members), r)
    ensures var x := Find(members, MemberName(r.path));
            && x.Some? && x.value.content.Some?
            && r.checksum == Sha256(x.value.content.value)
  {
    var i :| 0 <= i < |m.files.value| && m.files.value[i] == r;
    assert RecordSound(LookupIn(members), m.files.value[i]);
  }

  /** Accepted archives with the same manifest have the same members, and the same content in every listed one. */
  lemma SameManifestSameFiles(formats: Formats, a: seq<Member>, b: seq<Member>, m: Manifest, name: string)
    ensures IsRelease(formats, a, m) && IsRelease(formats, b, m) ==>
              && Names(a) == Names(b)
              && (name in MemberNames(Paths(m.files.value)) ==>
                    && Find(a, name).Some? && Find(b, name).Some? && Find(a, name).value.content.Some?
                    && Find(a, name).value.content == Find(b, name).value.content)
  {
    if IsRelease(formats, a, m) && IsRelease(formats, b, m) && name in MemberNames(Paths(m.files.value)) {
      var path :| path in Paths(m.files.value) && name == MemberName(path);
      var r :| r in m.files.value && r.Record? && r.path == path;
      ListedContent(formats, a, m, r);
      ListedContent(formats, b, m, r);
    }
  }

  // ------------------------------------------------------------------------------------------
  // Building
  // ------------------------------------------------------------------------------------------

  /** A tracked file under its normalized path. */
  datatype Source = Source(path: string, content: Bytes)

  function Required(target: string): seq<string> {
    if target == "windows" then
      ["Start-FAB-Maintenance.cmd", "Start-FAB.ps1", "Stop-FAB.ps1", "config/config_template.ini", "requirements.txt",
       "src/main.py", "web/package.json", "web/pnpm-lock.yaml"]
    else
      ["Dockerfile", "docker-compose.maintenance.yml", "docker-compose.yml", "config/config_template.ini",
       "requirements.txt", "src/main.py", "web/Dockerfile", "web/package.json", "web/pnpm-lock.yaml"]
  }

  function RecordOf(source: Source): Record {
    Record(source.path, Some(|source.content|), Sha256(source.content))
  }

  function RecordsOf(sources: seq<Source>): seq<Record> {
    seq(|sources|, i requires 0 <= i < |sources| => RecordOf(sources[i]))
  }

  function PlainMember(name: string, content: Bytes): Member {
    Member(name, false, |content|, Some(content))
  }

  function MembersOf(sources: seq<Source>): seq<Member> {
    seq(|sources|, i requires 0 <= i < |sources| => PlainMember(MemberName(sources[i].path), sources[i].content))
  }

  function TotalContent(sources: seq<Source>): nat {
    if sources == [] then 0 else TotalContent(sources[..|sources| - 1]) + |sources[|sources| - 1].content|
  }

  function ManifestOf(target: string, commit: string, sources: seq<Source>): Manifest {
    Manifest(1, target, commit, Some(RecordsOf(sources)), Some(|sources|), Some(TotalContent(sources)))
  }

  /** The manifest is the last member. */
  function AllMembers(formats: Formats, target: string, commit: string, sources: seq<Source>): seq<Member> {
    MembersOf(sources) + [PlainMember(MemberName(MANIFEST), formats.write(ManifestOf(target, commit, sources)))]
  }

  /** The first file that is too large, or makes the total too large. */
  function CheckSizes(sources: seq<Source>): Option<Error> {
    if sources == [] then None
    else
      var n := |sources| - 1;
      if CheckSizes(sources[..n]).Some? then CheckSizes(sources[..n])
      else if |sources[n].content| > MAX_FILE_BYTES then Some(FileTooLarge)
      else if TotalContent(sources) > MAX_TOTAL_BYTES then Some(TotalTooLarge)
      else None
  }

  function CheckSources(target: string, commit: string, sources: seq<Source>): Option<Error> {
    if !IsTarget(target) then Some(UnsupportedTarget)
    else if !IsRevision(commit) then Some(InvalidRevision)
    else if sources == [] then Some(NoSources)
    else if exists path :: path in Required(target) && forall s :: s in sources ==> s.path != path
    then Some(RequiredMissing)
    else CheckSizes(sources)
  }

  function Written(formats: Formats, target: string, commit: string, sources: seq<Source>): Archive {
    var bytes := formats.pack(AllMembers(formats, target, commit, sources));
    Archive(bytes, Sidecar(false, Sha256(bytes)))
  }

  /** What is written stays only if it is verified. */
  function Build(formats: Formats, target: string, commit: string, sources: seq<Source>): Result<Archive> {
    if CheckSources(target, commit, sources).Some? then Err(CheckSources(target, commit, sources).value)
    else
      var archive := Written(formats, target, commit, sources);
      match Verify(formats, archive)
      case Err(e) => Err(e)
      case Ok(_) => Ok(archive)
  }

  lemma {:induction false} SizesStay(sources: seq<Source>, n: nat)
    requires n <= |sources| && CheckSizes(sources[..n]).Some?
    ensures CheckSizes(sources) == CheckSizes(sources[..n])
  {
    if n < |sources| {
      assert sources[..|sources| - 1][..n] == sources[..n];
      SizesStay(sources[..|sources| - 1], n);
    } else {
      assert sources[..n] == sources;
    }
  }

  /** The loop over the sources. */
  method Inventory(sources: seq<Source>) returns (r: Result<seq<Record>>, total: nat)
    ensures r == if CheckSizes(sources).Some? then Err(CheckSizes(sources).value) else Ok(RecordsOf(sources))
    ensures r.Ok? ==> total == TotalContent(sources)
  {
    var records: seq<Record> := [];
    total := 0;
    assert sources[..0] == [];
    for i := 0 to |sources|
      invariant CheckSizes(sources[..i]).None? && total == TotalContent(sources[..i])
      invariant records == RecordsOf(sources[..i])
    {
      assert sources[..i + 1][..i] == sources[..i];
      var size := |sources[i].content|;
      if size > MAX_FILE_BYTES {
        SizesStay(sources, i + 1);
        return Err(FileTooLarge), total;
      }
      total := total + size;
      if total > MAX_TOTAL_BYTES {
        SizesStay(sources, i + 1);
        return Err(TotalTooLarge), total;
      }
      records := records + [RecordOf(sources[i])];
    }
    assert sources[..|sources|] == sources;
    r := Ok(records);
  }

  method BuildPackage(formats: Formats, target: string, commit: string, sources: seq<Source>)
    returns (r: Result<Archive>)
    ensures r == Build(formats, target, commit, sources)
  {
    if !IsTarget(target) {
      return Err(UnsupportedTarget);
    }
    if !IsRevision(commit) {
      return Err(InvalidRevision);
    }
    if sources == [] {
      return Err(NoSources);
    }
    if exists path :: path in Required(target) && forall s :: s in sources ==> s.path != path {
      return Err(RequiredMissing);
    }
    var inventory, total := Inventory(sources);
    if inventory.Err? {
      return Err(inventory.error);
    }
    var manifest := Manifest(1, target, commit, Some(inventory.value), Some(|inventory.value|), Some(total));
    var members := MembersOf(sources) + [PlainMember(MemberName(MANIFEST), formats.write(manifest))];
    var bytes := formats.pack(members);
    var archive := Archive(bytes, Sidecar(false, Sha256(bytes)));
    var verified := VerifyPackage(formats, archive);
    r := if verified.Err? then Err(verified.error) else Ok(archive);
  }

  // ------------------------------------------------------------------------------------------
  // What is built is verified
  // ------------------------------------------------------------------------------------------

  /** Unpacking undoes packing, and parsing undoes writing. */
  ghost predicate RoundTrips(formats: Formats) {
    && (forall members :: formats.unpack(formats.pack(members)) == Some(members))
    && (forall m :: formats.parse(formats.write(m)) == Some(m))
  }

  /** Different paths, none of them the manifest's. */
  ghost predicate DistinctSources(sources: seq<Source>) {
    && (forall i, j :: 0 <= i < j < |sources| ==> sources[i].path != sources[j].path)
    && (forall i :: 0 <= i < |sources| ==> sources[i].path != MANIFEST)
  }

  lemma NamesDistinctIff(sources: seq<Source>, last: Member)
    requires last.name == MemberName(MANIFEST)
    ensures DistinctNames(MembersOf(sources) + [last]) <==> DistinctSources(sources)
  {
    var all, n := MembersOf(sources) + [last], |sources|;
    assert forall i :: 0 <= i < n ==> all[i].name == MemberName(sources[i].path);
    if DistinctNames(all) {
      forall i, j | 0 <= i < j < n ensures sources[i].path != sources[j].path {
        assert all[i].name != all[j].name;
      }
      forall i | 0 <= i < n ensures sources[i].path != MANIFEST {
        assert all[i].name != all[n].name;
      }
    }
    if DistinctSources(sources) {
      forall i, j | 0 <= i < j <= n ensures all[i].name != all[j].name {
        var path := if j < n then sources[j].path else MANIFEST;
        if MemberName(sources[i].path) == MemberName(path) {
          MemberNameInjective(sources[i].path, path);
        }
      }
    }
  }

  lemma ManifestNameIsSafe()
    ensures IsArchiveName(MemberName(MANIFEST))
  {
    assert IsPart(MANIFEST) && |MANIFEST| > 2;
    assert Join([MANIFEST], '/') == MANIFEST;
    MemberOfParts([MANIFEST]);
  }

  lemma NamesAreSafe(sources: seq<Source>, last: Member)
    requires last.name == MemberName(MANIFEST) && forall s :: s in sources ==> IsNormal(s.path)
    ensures forall x :: x in MembersOf(sources) + [last] ==> IsArchiveName(x.name)
  {
    ManifestNameIsSafe();
    forall x | x in MembersOf(sources) ensures IsArchiveName(x.name) {
      var i :| 0 <= i < |sources| && MembersOf(sources)[i] == x;
      assert sources[i] in sources;
      NormalPathIsMember(sources[i].path);
    }
  }

  /** The manifest of what is written can be read unless a name occurs twice or it is too large. */
  lemma WrittenManifest(formats: Formats, target: string, commit: string, sources: seq<Source>)
    requires RoundTrips(formats) && forall s :: s in sources ==> IsNormal(s.path)
    ensures var m := ManifestOf(target, commit, sources);
            var read := ReadManifest(formats, AllMembers(formats, target, commit, sources));
            && (read.Ok? <==> DistinctSources(sources) && |formats.write(m)| <= MAX_MANIFEST_BYTES)
            && (read.Ok? ==> read.value == m)
  {
    var last := PlainMember(MemberName(MANIFEST), formats.write(ManifestOf(target, commit, sources)));
    NamesDistinctIff(sources, last);
    NamesAreSafe(sources, last);
    assert Find(MembersOf(sources) + [last], last.name) == Some(last);
  }

  /** What CheckSizes has ruled out. */
  lemma {:induction false} SizesIff(sources: seq<Source>)
    ensures CheckSizes(sources).None? <==>
              (forall s :: s in sources ==> |s.content| <= MAX_FILE_BYTES) && TotalContent(sources) <= MAX_TOTAL_BYTES
  {
    if sources != [] {
      var n := |sources| - 1;
      SizesIff(sources[..n]);
      assert sources[n] in sources;
      assert sources == sources[..n] + [sources[n]];
    }
  }

  lemma {:induction false} TotalOfRecords(sources: seq<Source>)
    ensures TotalSize(RecordsOf(sources)) == TotalContent(sources)
  {
    if sources != [] {
      TotalOfRecords(sources[..|sources| - 1]);
      assert RecordsOf(sources)[..|sources| - 1] == RecordsOf(sources[..|sources| - 1]);
    }
  }

  lemma WrittenRecord(sources: seq<Source>, last: Member, i: nat)
    requires i < |sources| && last.name == MemberName(MANIFEST) && IsNormal(sources[i].path)
    requires DistinctNames(MembersOf(sources) + [last]) && |sources[i].content| <= MAX_FILE_BYTES
    ensures RecordSound(LookupIn(MembersOf(sources) + [last]), RecordOf(sources[i]))
  {
    var all := MembersOf(sources) + [last];
    var member := PlainMember(MemberName(sources[i].path), sources[i].content);
    assert all[i] == member;
    NormalPathIsMember(sources[i].path);
    FoundIsOnly(all, member);
  }

  lemma WrittenRecords(sources: seq<Source>, last: Member)
    requires last.name == MemberName(MANIFEST) && forall s :: s in sources ==> IsNormal(s.path)
    requires DistinctSources(sources) && CheckSizes(sources).None?
    ensures RecordsSound(LookupIn(MembersOf(sources) + [last]), RecordsOf(sources))
  {
    NamesDistinctIff(sources, last);
    SizesIff(sources);
    TotalOfRecords(sources);
    forall i | 0 <= i < |sources|
      ensures RecordSound(LookupIn(MembersOf(sources) + [last]), RecordsOf(sources)[i])
    {
      assert sources[i] in sources;
      WrittenRecord(sources, last, i);
    }
  }

  lemma WrittenNames(sources: seq<Source>, last: Member)
    requires last.name == MemberName(MANIFEST)
    ensures Names(MembersOf(sources) + [last]) == {MemberName(MANIFEST)} + MemberNames(Paths(RecordsOf(sources)))
  {
    var members, records := MembersOf(sources), RecordsOf(sources);
    forall x | x in members ensures x.name in MemberNames(Paths(records)) {
      var i :| 0 <= i < |sources| && members[i] == x;
      assert records[i] in records && records[i].path in Paths(records);
    }
    forall name | name in MemberNames(Paths(records)) ensures name in Names(members) {
      var path :| path in Paths(records) && name == MemberName(path);
      var r :| r in records && r.Record? && r.path == path;
      var i :| 0 <= i < |records| && records[i] == r;
      assert members[i] in members;
    }
    assert last in members + [last];
    forall name | name in Names(members) ensures name in Names(members + [last]) {
      var x :| x in members && x.name == name;
      assert x in members + [last];
    }
  }

  /** The members that are written are a release exactly under these limits. */
  lemma WrittenIsRelease(formats: Formats, target: string, commit: string, sources: seq<Source>)
    requires RoundTrips(formats) && CheckSources(target, commit, sources).None?
    requires forall s :: s in sources ==> IsNormal(s.path)
    ensures VerifyMembers(formats, AllMembers(formats, target, commit, sources)).Ok? <==>
              && DistinctSources(sources) && |sources| <= MAX_RECORDS
              && |formats.write(ManifestOf(target, commit, sources))| <= MAX_MANIFEST_BYTES
  {
    var m, all := ManifestOf(target, commit, sources), AllMembers(formats, target, commit, sources);
    WrittenManifest(formats, target, commit, sources);
    if ReadManifest(formats, all).Ok? {
      ReleaseOfManifestIff(formats, all, m);
      WrittenRecords(sources, all[|sources|]);
      WrittenNames(sources, all[|sources|]);
      TotalOfRecords(sources);
    }
  }

  /**
   * A build of acceptable sources yields an archive exactly when their paths are distinct and none is
   * the manifest's, there are not too many, and neither manifest nor archive is too large. None of this
   * is looked at before the archive is written.
   */
  lemma BuildIff(formats: Formats, target: string, commit: string, sources: seq<Source>)
    requires RoundTrips(formats) && CheckSources(target, commit, sources).None?
    requires forall s :: s in sources ==> IsNormal(s.path)
    ensures Build(formats, target, commit, sources).Ok? <==>
              && DistinctSources(sources) && |sources| <= MAX_RECORDS
              && |formats.write(ManifestOf(target, commit, sources))| <= MAX_MANIFEST_BYTES
              && |formats.pack(AllMembers(formats, target, commit, sources))| <= MAX_TOTAL_BYTES
  {
    WrittenIsRelease(formats, target, commit, sources);
    assert formats.unpack(formats.pack(AllMembers(formats, target, commit, sources)))
        == Some(AllMembers(formats, target, commit, sources));
  }

  /** An archive that was built holds every source under its path, with its content. */
  lemma BuiltHoldsSources(formats: Formats, target: string, commit: string, sources: seq<Source>, i: nat)
    requires RoundTrips(formats) && i < |sources| && forall s :: s in sources ==> IsNormal(s.path)
    ensures var built := Build(formats, target, commit, sources);
            built.Ok? ==>
              && Verify(formats, built.value).Ok? && formats.unpack(built.value.bytes).Some?
              && Find(formats.unpack(built.value.bytes).value, MemberName(sources[i].path))
                 == Some(PlainMember(MemberName(sources[i].path), sources[i].content))
  {
    if Build(formats, target, commit, sources).Ok? {
      BuildIff(formats, target, commit, sources);
      var all := AllMembers(formats, target, commit, sources);
      assert formats.unpack(formats.pack(all)) == Some(all);
      NamesDistinctIff(sources, all[|sources|]);
      assert all[i] in all;
      FoundIsOnly(all, all[i]);
    }
  }
}
