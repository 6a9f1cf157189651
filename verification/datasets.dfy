/** The signed dataset manifests and their registry directory (src/datasets.rs):
    immutable manifests, no leak between selection and sealed validation, and a
    holdout that is handed out at most once. */
module Datasets {
  import opened Common

  datatype Role = Research | Selection | SealedValidation | ShadowRole | CanaryRole | LiveRole

  /** A closed interval of instants. */
  datatype Partition = Partition(role: Role, startSecs: i64, endSecs: i64)

  datatype Manifest = Manifest(
    schemaVersion: u32,
    datasetId: string,
    origin: string,
    license: string,
    intervalStartSecs: i64,
    intervalEndSecs: i64,
    instruments: seq<string>,
    timezone: string,
    transformations: seq<string>,
    sourceSchemaVersion: u32,
    createdAtSecs: i64,
    partitions: seq<Partition>)

  datatype Signed = Signed(manifest: Manifest, signature: string)

  datatype Consumption = Consumption(
    manifestDigest: string, datasetId: string, partition: Partition, evaluatorId: string, consumedAtSecs: i64)

  datatype DatasetError =
    | InvalidManifest
    | InvalidSignature
    | HashMismatch
    | DifferentManifest
    | RegistryTooLarge
    | HoldoutOverlap
    | UnreadableFile
    | HoldoutConsumed
    | MarkerMismatch
    | WriteFailed

  /** What creating a new file does: all of it, nothing, a file nobody can
      parse, or a complete file whose final sync reports an error. */
  datatype WriteOutcome = Written | Refused | Torn | WrittenThenFailed

  const MANIFEST_SCHEMA_VERSION: u32 := 1
  const MAX_REGISTRY_ENTRIES: nat := 10_000
  const DIGEST_PREFIX := "sha256:"

  // ----- one manifest -----

  predicate IsDigest(id: string) {
    && |id| == |DIGEST_PREFIX| + 64
    && DIGEST_PREFIX <= id
    && forall i | |DIGEST_PREFIX| <= i < |id| :: '0' <= id[i] <= '9' || 'a' <= id[i] <= 'f'
  }

  predicate IsTicker(s: string) {
    && 1 <= |s| <= 32
    && forall i | 0 <= i < |s| :: 'A' <= s[i] <= 'Z' || '0' <= s[i] <= '9' || s[i] == '.'
  }

  predicate Distinct<T(==)>(items: seq<T>) {
    forall i, j | 0 <= i < j < |items| :: items[i] != items[j]
  }

  predicate Ordered(p: Partition) {
    p.startSecs <= p.endSecs
  }

  predicate IntervalsOverlap(a: Partition, b: Partition) {
    a.startSecs <= b.endSecs && b.startSecs <= a.endSecs
  }

  predicate HasProvenance(m: Manifest) {
    && !IsBlank(m.origin) && !IsBlank(m.license) && !IsBlank(m.timezone)
    && m.instruments != [] && (forall s | s in m.instruments :: IsTicker(s)) && Distinct(m.instruments)
    && (forall s | s in m.transformations :: !IsBlank(s)) && Distinct(m.transformations)
    && m.sourceSchemaVersion != 0
    && m.createdAtSecs > 0
    && m.intervalStartSecs <= m.intervalEndSecs
    && m.partitions != []
  }

  predicate PartitionsFit(m: Manifest) {
    forall p | p in m.partitions ::
      Ordered(p) && m.intervalStartSecs <= p.startSecs && p.endSecs <= m.intervalEndSecs
  }

  predicate PartitionsDisjoint(m: Manifest) {
    forall i, j | 0 <= i < j < |m.partitions| :: !IntervalsOverlap(m.partitions[i], m.partitions[j])
  }

  predicate ManifestIsValid(m: Manifest) {
    && m.schemaVersion == MANIFEST_SCHEMA_VERSION
    && IsDigest(m.datasetId)
    && HasProvenance(m)
    && PartitionsFit(m)
    && PartitionsDisjoint(m)
  }

  /** The checks of the program, one by one. */
  method ValidateManifest(m: Manifest) returns (ok: bool)
    ensures ok <==> ManifestIsValid(m)
  {
    if m.schemaVersion != 1 {
      return false;
    }
    var digest := ValidateDigest(m.datasetId);
    if !digest {
      return false;
    }
    var provenance := ValidateProvenance(m);
    if !provenance {
      return false;
    }
    ok := ValidatePartitions(m);
  }

  method ValidateDigest(id: string) returns (ok: bool)
    ensures ok <==> IsDigest(id)
  {
    if |id| != 71 || id[..7] != "sha256:" {
      return false;
    }
    for i := 7 to 71
      invariant forall k | 7 <= k < i :: '0' <= id[k] <= '9' || 'a' <= id[k] <= 'f'
    {
      if !('0' <= id[i] <= '9') && !('a' <= id[i] <= 'f') {
        return false;
      }
    }
    ok := true;
  }

  method ValidateProvenance(m: Manifest) returns (ok: bool)
    ensures ok <==> HasProvenance(m)
  {
    var a, b := TrimExactly(m.origin);
    a, b := TrimExactly(m.license);
    a, b := TrimExactly(m.timezone);
    if Trim(m.origin) == "" || Trim(m.license) == "" || Trim(m.timezone) == "" || m.instruments == [] {
      return false;
    }
    for n := 0 to |m.instruments|
      invariant forall i | 0 <= i < n :: IsTicker(m.instruments[i])
    {
      var ticker := ValidateTicker(m.instruments[n]);
      if !ticker {
        return false;
      }
    }
    for n := 0 to |m.transformations|
      invariant forall i | 0 <= i < n :: !IsBlank(m.transformations[i])
    {
      a, b := TrimExactly(m.transformations[n]);
      if Trim(m.transformations[n]) == "" {
        return false;
      }
    }
    DistinctBySize(m.instruments);
    DistinctBySize(m.transformations);
    ok := && |set s | s in m.instruments| == |m.instruments|
          && |set s | s in m.transformations| == |m.transformations|
          && m.sourceSchemaVersion != 0 && m.createdAtSecs > 0
          && m.intervalStartSecs <= m.intervalEndSecs && m.partitions != [];
  }

  method ValidateTicker(s: string) returns (ok: bool)
    ensures ok <==> IsTicker(s)
  {
    if s == "" || |s| > 32 {
      return false;
    }
    for i := 0 to |s|
      invariant forall k | 0 <= k < i :: 'A' <= s[k] <= 'Z' || '0' <= s[k] <= '9' || s[k] == '.'
    {
      if s[i] != '.' && !('A' <= s[i] <= 'Z') && !('0' <= s[i] <= '9') {
        return false;
      }
    }
    ok := true;
  }

  /** Items are distinct exactly when there are as many different ones. */
  lemma {:induction false} DistinctBySize(items: seq<string>)
    ensures |set s | s in items| <= |items|
    ensures Distinct(items) <==> |set s | s in items| == |items|
  {
    if items != [] {
      var n := |items| - 1;
      var rest, last := items[..n], items[n];
      DistinctBySize(rest);
      assert items == rest + [last];
      assert (set s | s in items) == (set s | s in rest) + {last};
      if last in rest {
        var i :| 0 <= i < n && rest[i] == last;
        assert items[i] == items[n];
      }
    }
  }

  method ValidatePartitions(m: Manifest) returns (ok: bool)
    ensures ok <==> PartitionsFit(m) && PartitionsDisjoint(m)
  {
    for n := 0 to |m.partitions|
      invariant forall i | 0 <= i < n ::
                  var p := m.partitions[i]; m.intervalStartSecs <= p.startSecs <= p.endSecs <= m.intervalEndSecs
    {
      var p := m.partitions[n];
      if p.startSecs > p.endSecs || p.startSecs < m.intervalStartSecs || p.endSecs > m.intervalEndSecs {
        assert p in m.partitions;
        return false;
      }
    }
    for n := 0 to |m.partitions|
      invariant forall i, j | 0 <= i < n && i < j < |m.partitions| :: !IntervalsOverlap(m.partitions[i], m.partitions[j])
    {
      for k := n + 1 to |m.partitions|
        invariant forall j | n < j < k :: !IntervalsOverlap(m.partitions[n], m.partitions[j])
      {
        if IntervalsOverlap(m.partitions[n], m.partitions[k]) {
          return false;
        }
      }
    }
    ok := true;
  }

  predicate Covers(p: Partition, t: int) {
    p.startSecs <= t <= p.endSecs
  }

  /** In a valid manifest an instant belongs to at most one partition. */
  lemma OneRoleAtATime(m: Manifest, i: nat, j: nat, t: int)
    requires ManifestIsValid(m) && i < |m.partitions| && j < |m.partitions|
    ensures Covers(m.partitions[i], t) && Covers(m.partitions[j], t) ==> i == j
  {
    if i != j {
      var first, second := if i < j then i else j, if i < j then j else i;
      assert !IntervalsOverlap(m.partitions[first], m.partitions[second]);
    }
  }

  // ----- two manifests -----

  predicate InstrumentsOverlap(a: Manifest, b: Manifest) {
    exists x :: x in b.instruments && x in a.instruments
  }

  predicate Incompatible(a: Role, b: Role) {
    (a == Selection && b == SealedValidation) || (a == SealedValidation && b == Selection)
  }

  predicate SelectionMeetsHoldout(a: Manifest, b: Manifest) {
    exists p, q | p in a.partitions && q in b.partitions ::
      && Incompatible(p.role, q.role)
      && IntervalsOverlap(p, q)
  }

  predicate Clash(existing: Manifest, candidate: Manifest) {
    InstrumentsOverlap(existing, candidate) && SelectionMeetsHoldout(existing, candidate)
  }

  /** Instant `t` of instrument `x` is data of this manifest with this role. */
  ghost predicate Uses(m: Manifest, role: Role, x: string, t: int) {
    x in m.instruments && exists p :: p in m.partitions && p.role == role && Covers(p, t)
  }

  /** Some instant of some instrument is selected by one and sealed by the other. */
  ghost predicate Leaks(selecting: Manifest, sealing: Manifest) {
    exists x, t :: Uses(selecting, Selection, x, t) && Uses(sealing, SealedValidation, x, t)
  }

  lemma OverlapIsASharedInstant(p: Partition, q: Partition)
    requires Ordered(p) && Ordered(q)
    ensures IntervalsOverlap(p, q) <==> exists t :: Covers(p, t) && Covers(q, t)
  {
    if IntervalsOverlap(p, q) {
      var t := if p.startSecs < q.startSecs then q.startSecs else p.startSecs;
      assert Covers(p, t) && Covers(q, t);
    }
  }

  /** The interval and set comparisons of the registry find exactly the leaks. */
  lemma ClashIsLeak(a: Manifest, b: Manifest)
    requires ManifestIsValid(a) && ManifestIsValid(b)
    ensures Clash(a, b) <==> Leaks(a, b) || Leaks(b, a)
  {
    if Clash(a, b) {
      ClashLeaks(a, b);
    }
    if Leaks(a, b) {
      LeakClashes(a, b);
      assert SelectionMeetsHoldout(a, b);
    }
    if Leaks(b, a) {
      LeakClashes(b, a);
      ClashIsSymmetric(b, a);
    }
  }

  lemma ClashLeaks(a: Manifest, b: Manifest)
    requires ManifestIsValid(a) && ManifestIsValid(b) && Clash(a, b)
    ensures Leaks(a, b) || Leaks(b, a)
  {
    var x :| x in b.instruments && x in a.instruments;
    var p, q :| p in a.partitions && q in b.partitions
      && Incompatible(p.role, q.role)
      && IntervalsOverlap(p, q);
    OverlapIsASharedInstant(p, q);
    var t :| Covers(p, t) && Covers(q, t);
    assert Uses(a, p.role, x, t) && Uses(b, q.role, x, t);
  }

  lemma LeakClashes(a: Manifest, b: Manifest)
    requires ManifestIsValid(a) && ManifestIsValid(b) && Leaks(a, b)
    ensures Clash(a, b)
  {
    var x, t :| Uses(a, Selection, x, t) && Uses(b, SealedValidation, x, t);
    var p :| p in a.partitions && p.role == Selection && Covers(p, t);
    var q :| q in b.partitions && q.role == SealedValidation && Covers(q, t);
    OverlapIsASharedInstant(p, q);
  }

  lemma ClashIsSymmetric(a: Manifest, b: Manifest)
    requires Clash(a, b)
    ensures Clash(b, a)
  {
    var p, q :| p in a.partitions && q in b.partitions
      && Incompatible(p.role, q.role)
      && IntervalsOverlap(p, q);
    assert IntervalsOverlap(q, p);
  }

  lemma NeverClashesWithItself(m: Manifest)
    requires ManifestIsValid(m)
    ensures !Clash(m, m)
  {
    forall i, j | 0 <= i < |m.partitions| && 0 <= j < |m.partitions| && i != j
      ensures !IntervalsOverlap(m.partitions[i], m.partitions[j])
    {
      var first, second := if i < j then i else j, if i < j then j else i;
      assert !IntervalsOverlap(m.partitions[first], m.partitions[second]);
    }
  }

  // ----- what the registry promises -----

  /** Registered files by dataset id; None is a file that does not parse. */
  type Files = map<string, Option<Signed>>

  predicate Registered(files: Files, id: string) {
    id in files && files[id].Some?
  }

  ghost predicate FilesAreSound(files: Files) {
    && (forall id | Registered(files, id) ::
          files[id].value.manifest.datasetId == id && ManifestIsValid(files[id].value.manifest))
    && (forall a, b | Registered(files, a) && Registered(files, b) ::
          !Clash(files[a].value.manifest, files[b].value.manifest))
  }

  /** In a sound registry no instant of an instrument is both selected and
      sealed, whichever registered manifests say so. */
  lemma HoldoutsStayUnseen(files: Files, x: string, t: int, a: string, b: string)
    requires FilesAreSound(files) && Registered(files, a) && Registered(files, b)
    requires Uses(files[a].value.manifest, Selection, x, t)
    ensures !Uses(files[b].value.manifest, SealedValidation, x, t)
  {
    ClashIsLeak(files[a].value.manifest, files[b].value.manifest);
  }

  /** The holdouts handed out so far, oldest first, each the only sealed
      partition of a registered manifest, no marker twice. */
  ghost predicate HandedOutFrom(files: Files, markers: set<string>, digest: Manifest -> string, handedOut: seq<Consumption>) {
    && (forall c | c in handedOut ::
          && c.manifestDigest in markers
          && Registered(files, c.datasetId)
          && c.manifestDigest == digest(files[c.datasetId].value.manifest)
          && SealedOf(files[c.datasetId].value.manifest) == [c.partition])
    && (forall i, j | 0 <= i < j < |handedOut| :: handedOut[i].manifestDigest != handedOut[j].manifestDigest)
  }

  /** So each dataset's holdout was handed out at most once. */
  lemma HandedOutOnce(files: Files, markers: set<string>, digest: Manifest -> string, handedOut: seq<Consumption>, i: nat, j: nat)
    requires HandedOutFrom(files, markers, digest, handedOut) && i < |handedOut| && j < |handedOut|
    requires handedOut[i].datasetId == handedOut[j].datasetId
    ensures i == j
  {
    assert handedOut[i] in handedOut && handedOut[j] in handedOut;
  }

  /** The partitions of one role, in order. */
  function WithRole(partitions: seq<Partition>, role: Role): (kept: seq<Partition>)
    ensures forall p :: p in kept <==> p in partitions && p.role == role
  {
    if partitions == [] then []
    else
      (if partitions[0].role == role then [partitions[0]] else []) + WithRole(partitions[1..], role)
  }

  function SealedOf(m: Manifest): seq<Partition> {
    WithRole(m.partitions, SealedValidation)
  }

  /** Which signatures the current key accepts. */
  type Verifier = (Manifest, string) -> bool

  predicate SignatureIsValid(signed: Signed, verify: Verifier) {
    ManifestIsValid(signed.manifest) && verify(signed.manifest, signed.signature)
  }

  method ValidateSignature(signed: Signed, verify: Verifier) returns (r: Result<(), DatasetError>)
    ensures r.Ok? <==> SignatureIsValid(signed, verify)
    ensures r.Err? ==> r.error == if ManifestIsValid(signed.manifest) then InvalidSignature else InvalidManifest
  {
    var valid := ValidateManifest(signed.manifest);
    if !valid {
      return Err(InvalidManifest);
    }
    if !verify(signed.manifest, signed.signature) {
      return Err(InvalidSignature);
    }
    return Ok(());
  }

  /** `fileHash` is the digest of the dataset file as it is now. */
  method ValidateSignedManifest(fileHash: string, signed: Signed, verify: Verifier) returns (r: Result<(), DatasetError>)
    ensures r.Ok? <==> SignatureIsValid(signed, verify) && fileHash == signed.manifest.datasetId
  {
    r := ValidateSignature(signed, verify);
    if r.Ok? && fileHash != signed.manifest.datasetId {
      return Err(HashMismatch);
    }
  }

  function Utf8Length(s: string): nat {
    if s == [] then 0
    else
      var n := s[0] as int;
      (if n < 0x80 then 1 else if n < 0x800 then 2 else if n < 0x1_0000 then 3 else 4) + Utf8Length(s[1..])
  }

  predicate IsControl(c: char) {
    c as int < 0x20 || 0x7F <= c as int <= 0x9F
  }

  predicate EvaluatorIsValid(evaluatorId: string) {
    var id := Trim(evaluatorId);
    && id != ""
    && Utf8Length(id) <= 128
    && forall i | 0 <= i < |id| :: !IsControl(id[i])
  }

  /** Bytes in UTF-8, by the first code point that needs one more. */
  lemma {:induction false} Utf8LengthExactly(s: string, c: char)
    ensures Utf8Length(s + [c]) == Utf8Length(s) + Utf8Length([c])
    ensures var n := c as int;
            Utf8Length([c]) == 1 + (if n >= 128 then 1 else 0) + (if n >= 2_048 then 1 else 0) + if n >= 65_536 then 1 else 0
  {
    if s == [] {
      assert s + [c] == [c];
    } else {
      Utf8LengthExactly(s[1..], c);
      assert (s + [c])[1..] == s[1..] + [c];
    }
  }

  /** The program's check of an evaluator. */
  method ValidateEvaluator(evaluatorId: string) returns (ok: bool)
    ensures ok <==> EvaluatorIsValid(evaluatorId)
  {
    var id := Trim(evaluatorId);
    var bytes, controls := 0, false;
    for i := 0 to |id|
      invariant bytes == Utf8Length(id[..i]) && (controls <==> exists k :: 0 <= k < i && IsControl(id[k]))
    {
      Utf8LengthExactly(id[..i], id[i]);
      assert id[..i + 1] == id[..i] + [id[i]];
      var n := id[i] as int;
      bytes := bytes + if n <= 0x7F then 1 else if n <= 0x7FF then 2 else if n <= 0xFFFF then 3 else 4;
      controls := controls || n <= 31 || (127 <= n && n <= 159);
    }
    assert id[..|id|] == id;
    ok := |id| > 0 && !(bytes > 128) && !controls;
  }

  /** Why no marker was written: there is one that cannot be read, one of this very
      request, or one of another; or there is none and the write failed. */
  lemma MarkerErrorExactly(markers: map<string, Option<Consumption>>, request: Consumption)
    ensures var name, error := request.manifestDigest, MarkerError(markers, request);
            && (error == WriteFailed <==> name !in markers)
            && (error == UnreadableFile <==> name in markers && markers[name] == None)
            && (error == HoldoutConsumed <==> name in markers && markers[name] == Some(request))
            && (error == MarkerMismatch <==> name in markers && markers[name] != None && markers[name] != Some(request))
  {
  }

  datatype Entry = DatasetFile(id: string) | ConsumedDirectory

  predicate MayStandBeside(files: Files, id: string, candidate: Manifest, verify: Verifier)
    requires id in files
  {
    && files[id].Some?
    && SignatureIsValid(files[id].value, verify)
    && !Clash(files[id].value.manifest, candidate)
  }

  /** Why a marker was not created: one exists (torn, of this very request, or
      of another), or the write failed. */
  function MarkerError(markers: map<string, Option<Consumption>>, request: Consumption): DatasetError {
    var name := request.manifestDigest;
    if name !in markers then WriteFailed
    else if markers[name].None? then UnreadableFile
    else if markers[name].value == request then HoldoutConsumed
    else MarkerMismatch
  }

  lemma {:induction false} EntryPerFile(ids: set<string>)
    ensures |set id | id in ids :: DatasetFile(id)| == |ids|
  {
    if id :| id in ids {
      EntryPerFile(ids - {id});
      assert (set i | i in ids :: DatasetFile(i)) == (set i | i in ids - {id} :: DatasetFile(i)) + {DatasetFile(id)};
    } else {
      assert (set i | i in ids :: DatasetFile(i)) == {};
    }
  }

  class Registry {
    const digest: Manifest -> string
    var files: Files
    var consumedDirectory: bool
    var markers: map<string, Option<Consumption>>
    ghost var handedOut: seq<Consumption>

    ghost predicate Valid()
      reads this
    {
      && FilesAreSound(files)
      && (markers != map[] ==> consumedDirectory)
      && HandedOutFrom(files, markers.Keys, digest, handedOut)
    }

    constructor (digest: Manifest -> string)
      ensures Valid() && files == map[] && markers == map[] && handedOut == [] && this.digest == digest
    {
      this.digest := digest;
      files, consumedDirectory, markers, handedOut := map[], false, map[], [];
    }

    function Entries(): set<Entry>
      reads this
    {
      (set id | id in files :: DatasetFile(id)) + if consumedDirectory then {ConsumedDirectory} else {}
    }

    /** The directory holds the dataset files and, once a holdout was asked for, the one
        directory of markers. */
    lemma {:induction false} EntriesExactly()
      ensures |Entries()| == |files| + if consumedDirectory then 1 else 0
    {
      EntryPerFile(files.Keys);
      assert (set id | id in files :: DatasetFile(id)) == set id | id in files.Keys :: DatasetFile(id);
    }

    /** The directory is small enough, every file in it parses and carries a
        valid signature, and none clashes. */
    predicate HasRoomFor(candidate: Manifest, verify: Verifier)
      reads this
    {
      && |Entries()| <= MAX_REGISTRY_ENTRIES
      && forall id | id in files :: MayStandBeside(files, id, candidate, verify)
    }

    /** Lists the directory, in any order. */
    method RejectRegistryOverlap(candidate: Manifest, verify: Verifier) returns (r: Result<(), DatasetError>)
      ensures r.Ok? <==> HasRoomFor(candidate, verify)
      ensures r.Ok? <==>
                && |Entries()| <= 10_000
                && forall id | id in files ::
                     && files[id].Some? && SignatureIsValid(files[id].value, verify)
                     && !Clash(files[id].value.manifest, candidate)
      ensures r == Err(HoldoutOverlap) ==>
                exists id :: Registered(files, id) && Clash(files[id].value.manifest, candidate)
    {
      var left := Entries();
      var entries: nat := 0;
      while left != {}
        invariant left <= Entries() && |left| + entries == |Entries()| && entries <= MAX_REGISTRY_ENTRIES
        invariant forall id | id in files :: DatasetFile(id) in left || MayStandBeside(files, id, candidate, verify)
        decreases |left|
      {
        var entry :| entry in left;
        left := left - {entry};
        entries := entries + 1;
        if entries > MAX_REGISTRY_ENTRIES {
          return Err(RegistryTooLarge);
        }
        if entry.DatasetFile? {
          if files[entry.id].None? {
            return Err(UnreadableFile);
          }
          var existing := files[entry.id].value;
          r := ValidateSignature(existing, verify);
          if r.Err? {
            return;
          }
          if Clash(existing.manifest, candidate) {
            return Err(HoldoutOverlap);
          }
        }
      }
      return Ok(());
    }

    /** Registering succeeds exactly then: the manifest is signed for these
        bytes and is the one already registered, or it is new, fits and is
        written. */
    predicate Registers(fileHash: string, signed: Signed, verify: Verifier, write: WriteOutcome)
      reads this
    {
      var id := signed.manifest.datasetId;
      && SignatureIsValid(signed, verify)
      && fileHash == id
      && if id in files then files[id] == Some(signed)
         else HasRoomFor(signed.manifest, verify) && write == Written
    }

    /** The file that registering leaves, if it creates one. */
    function FilesAfter(fileHash: string, signed: Signed, verify: Verifier, write: WriteOutcome): Files
      reads this
    {
      var id := signed.manifest.datasetId;
      if SignatureIsValid(signed, verify) && fileHash == id && id !in files
         && HasRoomFor(signed.manifest, verify) && write != Refused
      then files[id := if write == Torn then None else Some(signed)]
      else files
    }

    lemma AddingKeepsSound(signed: Signed, verify: Verifier, content: Option<Signed>)
      requires Valid() && SignatureIsValid(signed, verify) && HasRoomFor(signed.manifest, verify)
      requires signed.manifest.datasetId !in files && (content.Some? ==> content.value == signed)
      ensures FilesAreSound(files[signed.manifest.datasetId := content])
    {
      NeverClashesWithItself(signed.manifest);
      var id := signed.manifest.datasetId;
      var after := files[id := content];
      forall a, b | Registered(after, a) && Registered(after, b)
        ensures !Clash(after[a].value.manifest, after[b].value.manifest)
      {
        if b == id && a != id {
          assert MayStandBeside(files, a, signed.manifest, verify);
        } else if a == id && b != id {
          assert MayStandBeside(files, b, signed.manifest, verify);
          if Clash(signed.manifest, files[b].value.manifest) {
            ClashIsSymmetric(signed.manifest, files[b].value.manifest);
          }
        }
      }
    }

    /** A registered file is never replaced. */
    method RegisterDataset(fileHash: string, signed: Signed, verify: Verifier, write: WriteOutcome)
      returns (r: Result<(), DatasetError>)
      requires Valid()
      modifies this`files
      ensures Valid()
      ensures r.Ok? <==> old(Registers(fileHash, signed, verify, write))
      ensures files == old(FilesAfter(fileHash, signed, verify, write))
      ensures r.Ok? ==> signed.manifest.datasetId in files && files[signed.manifest.datasetId] == Some(signed)
    {
      r := ValidateSignedManifest(fileHash, signed, verify);
      if r.Err? {
        return;
      }
      var id := signed.manifest.datasetId;
      if id in files {
        return
          if files[id].None? then Err(UnreadableFile)
          else if files[id].value != signed then Err(DifferentManifest)
          else Ok(());
      }
      r := RegisterNew(signed, verify, write);
    }

    method RegisterNew(signed: Signed, verify: Verifier, write: WriteOutcome) returns (r: Result<(), DatasetError>)
      requires Valid() && SignatureIsValid(signed, verify) && signed.manifest.datasetId !in files
      modifies this`files
      ensures Valid()
      ensures r.Ok? <==> old(HasRoomFor(signed.manifest, verify)) && write == Written
      ensures files == old(FilesAfter(signed.manifest.datasetId, signed, verify, write))
    {
      r := RejectRegistryOverlap(signed.manifest, verify);
      if r.Err? {
        return;
      }
      r := CreateFile(signed, verify, write);
    }

    method CreateFile(signed: Signed, verify: Verifier, write: WriteOutcome) returns (r: Result<(), DatasetError>)
      requires Valid() && SignatureIsValid(signed, verify) && signed.manifest.datasetId !in files
      requires HasRoomFor(signed.manifest, verify)
      modifies this`files
      ensures Valid()
      ensures r.Ok? <==> write == Written
      ensures files == if write == Refused then old(files)
                       else old(files)[signed.manifest.datasetId := if write == Torn then None else Some(signed)]
    {
      if write == Refused {
        return Err(WriteFailed);
      }
      var content := if write == Torn then None else Some(signed);
      AddingKeepsSound(signed, verify, content);
      AddingKeepsHandedOut(signed.manifest.datasetId, content);
      files := files[signed.manifest.datasetId := content];
      return if write == Written then Ok(()) else Err(WriteFailed);
    }

    lemma AddingKeepsHandedOut(id: string, content: Option<Signed>)
      requires Valid() && id !in files
      ensures HandedOutFrom(files[id := content], markers.Keys, digest, handedOut)
    {
    }

    function ConsumptionOf(signed: Signed, evaluatorId: string, consumedAtSecs: i64): Consumption
      requires SealedOf(signed.manifest) != []
    {
      Consumption(digest(signed.manifest), signed.manifest.datasetId, SealedOf(signed.manifest)[0], Trim(evaluatorId), consumedAtSecs)
    }

    /** A request that is complete before the registry is asked. */
    predicate MayRequest(fileHash: string, signed: Signed, verify: Verifier, evaluatorId: string, consumedAtSecs: i64) {
      && EvaluatorIsValid(evaluatorId)
      && consumedAtSecs > 0
      && SignatureIsValid(signed, verify) && fileHash == signed.manifest.datasetId
      && |SealedOf(signed.manifest)| == 1
    }

    /** Hands the holdout out exactly when the request is complete, the dataset
        registers, no marker of this manifest exists and the marker is written.
        Whatever happens to the marker file, one that exists stays. */
    method ConsumeSealedHoldout(fileHash: string, signed: Signed, verify: Verifier, evaluatorId: string,
                                consumedAtSecs: i64, write: WriteOutcome, markerWrite: WriteOutcome)
      returns (r: Result<Consumption, DatasetError>)
      requires Valid()
      modifies this
      ensures Valid()
      ensures files == if MayRequest(fileHash, signed, verify, evaluatorId, consumedAtSecs)
                       then old(FilesAfter(fileHash, signed, verify, write)) else old(files)
      ensures r.Ok? <==>
              && MayRequest(fileHash, signed, verify, evaluatorId, consumedAtSecs)
              && old(Registers(fileHash, signed, verify, write))
              && digest(signed.manifest) !in old(markers) && markerWrite == Written
      ensures r.Ok? ==> SealedOf(signed.manifest) == [r.value.partition]
                        && r.value == ConsumptionOf(signed, evaluatorId, consumedAtSecs)
                        && r.value == Consumption(digest(signed.manifest), signed.manifest.datasetId, r.value.partition,
                                                  Trim(evaluatorId), consumedAtSecs)
                        && markers == old(markers)[r.value.manifestDigest := Some(r.value)]
      ensures handedOut == old(handedOut) + if r.Ok? then [r.value] else []
      ensures forall d | d in old(markers) :: d in markers && markers[d] == old(markers)[d]
      ensures MayRequest(fileHash, signed, verify, evaluatorId, consumedAtSecs)
              && old(Registers(fileHash, signed, verify, write)) && r.Err? ==>
                r.error == MarkerError(old(markers), ConsumptionOf(signed, evaluatorId, consumedAtSecs))
    {
      var evaluator := ValidateEvaluator(evaluatorId);
      if !evaluator || consumedAtSecs <= 0 {
        return Err(InvalidManifest);
      }
      var checked := ValidateSignedManifest(fileHash, signed, verify);
      if checked.Err? {
        return Err(checked.error);
      }
      var holdouts := SealedOf(signed.manifest);
      if |holdouts| != 1 {
        return Err(InvalidManifest);
      }
      var registered := RegisterDataset(fileHash, signed, verify, write);
      if registered.Err? {
        return Err(registered.error);
      }
      r := WriteMarker(signed, ConsumptionOf(signed, evaluatorId, consumedAtSecs), markerWrite);
    }

    method WriteMarker(ghost signed: Signed, consumption: Consumption, markerWrite: WriteOutcome)
      returns (r: Result<Consumption, DatasetError>)
      requires Valid()
      requires Registered(files, consumption.datasetId) && files[consumption.datasetId].value == signed
      requires consumption.manifestDigest == digest(signed.manifest)
      requires SealedOf(signed.manifest) == [consumption.partition]
      modifies this`consumedDirectory, this`markers, this`handedOut
      ensures Valid()
      ensures r.Ok? <==> consumption.manifestDigest !in old(markers) && markerWrite == Written
      ensures r.Ok? ==> r.value == consumption && markers == old(markers)[consumption.manifestDigest := Some(consumption)]
      ensures handedOut == old(handedOut) + if r.Ok? then [r.value] else []
      ensures forall d | d in old(markers) :: d in markers && markers[d] == old(markers)[d]
      ensures r.Err? ==> r.error == MarkerError(old(markers), consumption)
    {
      consumedDirectory := true;
      var name := consumption.manifestDigest;
      if name in markers {
        return Err(MarkerError(markers, consumption));
      }
      r := CreateMarker(signed, consumption, markerWrite);
    }

    method CreateMarker(ghost signed: Signed, consumption: Consumption, markerWrite: WriteOutcome)
      returns (r: Result<Consumption, DatasetError>)
      requires Valid() && consumedDirectory && consumption.manifestDigest !in markers
      requires Registered(files, consumption.datasetId) && files[consumption.datasetId].value == signed
      requires consumption.manifestDigest == digest(signed.manifest)
      requires SealedOf(signed.manifest) == [consumption.partition]
      modifies this`markers, this`handedOut
      ensures Valid()
      ensures r == if markerWrite == Written then Ok(consumption) else Err(WriteFailed)
      ensures markers == if markerWrite == Refused then old(markers)
                         else old(markers)[consumption.manifestDigest :=
                                             if markerWrite == Torn then None else Some(consumption)]
      ensures handedOut == old(handedOut) + if r.Ok? then [consumption] else []
    {
      if markerWrite == Refused {
        return Err(WriteFailed);
      }
      markers := markers[consumption.manifestDigest := if markerWrite == Torn then None else Some(consumption)];
      if markerWrite != Written {
        return Err(WriteFailed);
      }
      handedOut := handedOut + [consumption];
      return Ok(consumption);
    }
  }
}
