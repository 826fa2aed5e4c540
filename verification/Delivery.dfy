/** The forensic delivery descriptor: how it is built from a run, and the two validators it has to
    pass afterwards. */
module Delivery {
  import opened Text
  import Names
  import opened PortablePaths

  function Runs(): string { "runs" }

  function DescriptorName(): string { "forensic-delivery.json" }

  function RunManifestName(): string { "run-evidence-manifest.json" }

  function ReferencePath(): string { "private/scheduler-journal-reference.json" }

  function JournalPath(): string { "private/scheduler-journal" }

  const MAX_ARTIFACTS := 200_001
  const MAX_TOTAL_BYTES := 8_689_934_592

  /** SHA-256 of file bytes and of canonical JSON values, taken to be injective. */
  datatype Hash =
    | FileHash(bytes: Bytes)
    | InventoryHash(bindings: seq<Binding>)
    | DirectoriesHash(names: seq<string>)
    | PayloadHash(payload: Payload)

  datatype Binding = Binding(path: string, sha256: Hash, size: nat)

  /** The retained-journal reference; its other fields are opaque. */
  datatype Reference = Reference(owner: string, consumer: string, identity: nat)

  datatype Dependency = Dependency(
    referencePath: string,
    referenceFileSha256: Hash,
    journalDirectory: string,
    reference: Reference,
    artifactCount: nat,
    artifactTotalBytes: nat,
    artifactInventorySha256: Hash,
    artifacts: seq<Binding>,
    directoryCount: nat,
    directoryInventorySha256: Hash,
    directories: seq<string>)

  datatype Payload = Payload(
    sourceRunId: string,
    sourceRunDirectoryName: string,
    primaryRunDirectory: string,
    sourceManifestPath: string,
    sourceManifestFileSha256: Hash,
    sourceManifestSelfSha256: nat,
    artifactCount: nat,
    artifactTotalBytes: nat,
    artifactInventorySha256: Hash,
    artifacts: seq<Binding>,
    directoryCount: nat,
    directoryInventorySha256: Hash,
    directories: seq<string>,
    dependencies: seq<Dependency>,
    privateEvidenceIncluded: bool,
    logsIncluded: bool,
    privateArtifactCount: nat,
    logArtifactCount: nat)

  datatype Descriptor = Descriptor(payload: Payload, descriptorSha256: Hash)

  /** The Unicode tables and the run-name rule. */
  datatype Rules = Rules(tables: Names.Tables, safeRunName: string -> bool)

  /** Safe run names are single path components of at most 128 characters. */
  ghost predicate Sound(rules: Rules) {
    forall n: string :: rules.safeRunName(n) ==> IsName(n) && |n| <= 128
  }

  // ---------------------------------------------------------------- small helpers

  function Paths(bs: seq<Binding>): seq<string> {
    seq(|bs|, i requires 0 <= i < |bs| => bs[i].path)
  }

  function TotalSize(bs: seq<Binding>): nat {
    if bs == [] then 0 else bs[0].size + TotalSize(bs[1..])
  }

  /** `_prefix_binding`. */
  function Prefixed(b: Binding, prefix: string): Binding {
    b.(path := Under(prefix, b.path))
  }

  function PrefixAll(bs: seq<Binding>, prefix: string): seq<Binding> {
    seq(|bs|, i requires 0 <= i < |bs| => Prefixed(bs[i], prefix))
  }

  function UnderAll(prefix: string, names: seq<string>): seq<string> {
    seq(|names|, i requires 0 <= i < |names| => Under(prefix, names[i]))
  }

  /** `_is_run_evidence_class`. */
  predicate IsEvidenceClass(path: string, directory: string) {
    var parts := Parts(path);
    |parts| >= 4 && parts[0] == Runs() && parts[2] == directory
  }

  function CountClass(bs: seq<Binding>, directory: string): nat {
    if bs == [] then 0
    else (if IsEvidenceClass(bs[0].path, directory) then 1 else 0) + CountClass(bs[1..], directory)
  }

  /** All bindings of one path. */
  function BindingsOf(bs: seq<Binding>, path: string): seq<Binding> {
    if bs == [] then []
    else (if bs[0].path == path then [bs[0]] else []) + BindingsOf(bs[1..], path)
  }

  function InsertBinding(b: Binding, bs: seq<Binding>): seq<Binding> {
    if bs == [] then [b]
    else if Less(bs[0].path, b.path) then [bs[0]] + InsertBinding(b, bs[1..])
    else [b] + bs
  }

  /** `sorted(bindings, key=lambda binding: binding.path)`. */
  function SortBindings(bs: seq<Binding>): seq<Binding> {
    if bs == [] then [] else InsertBinding(bs[0], SortBindings(bs[1..]))
  }

  // ---------------------------------------------------------------- the validators

  function RunDirectory(name: string): string {
    Under(Runs(), name)
  }

  function JournalDirectory(owner: string): string {
    Under(RunDirectory(owner), JournalPath())
  }

  /** `RetainedJournalDependency.inventory_is_exact`, with the field bounds. */
  predicate DependencyExact(d: Dependency) {
    var owner := RunDirectory(d.reference.owner);
    var expected := JournalDirectory(d.reference.owner);
    && 1 <= |d.referencePath| <= MAX_PATH_LENGTH && 1 <= |d.journalDirectory| <= MAX_PATH_LENGTH
    && 1 <= d.artifactCount <= MAX_ARTIFACTS && 1 <= d.artifactTotalBytes <= MAX_TOTAL_BYTES
    && 1 <= |d.artifacts| <= MAX_ARTIFACTS
    && 3 <= d.directoryCount <= MAX_ARTIFACTS && 3 <= |d.directories| <= MAX_ARTIFACTS
    && d.journalDirectory == expected
    && Paths(d.artifacts) == SortedSet(Paths(d.artifacts))
    && (forall i :: 0 <= i < |d.artifacts| ==> StartsWith(d.artifacts[i].path, expected + "/"))
    && d.artifactCount == |d.artifacts|
    && d.artifactTotalBytes == TotalSize(d.artifacts)
    && d.artifactInventorySha256 == InventoryHash(d.artifacts)
    && d.directories == SortedSet(d.directories)
    && (forall i :: 0 <= i < |d.directories| ==>
          || d.directories[i] == expected || StartsWith(d.directories[i], expected + "/")
          || d.directories[i] == owner || d.directories[i] == Under(owner, "private"))
    && owner in d.directories && Under(owner, "private") in d.directories && expected in d.directories
    && d.directoryCount == |d.directories|
    && d.directoryInventorySha256 == DirectoriesHash(d.directories)
  }

  /** The check on one retained-journal dependency inside the payload validator. */
  predicate DependencyBound(p: Payload, d: Dependency) {
    && d.reference.consumer == p.sourceRunDirectoryName
    && d.referencePath == Under(p.primaryRunDirectory, ReferencePath())
    && |BindingsOf(p.artifacts, d.referencePath)| == 1
    && BindingsOf(p.artifacts, d.referencePath)[0].sha256 == d.referenceFileSha256
  }

  predicate InDependency(p: Payload, path: string) {
    exists i :: 0 <= i < |p.dependencies| && path in Paths(p.dependencies[i].artifacts)
  }

  /** `ForensicDeliveryDescriptorPayload.inventory_is_exact`, with the field bounds. At most one
      dependency is allowed, so two of them cannot overlap. */
  predicate PayloadExact(rules: Rules, p: Payload) {
    && 1 <= |p.sourceRunId| <= 160 && 1 <= |p.sourceRunDirectoryName| <= 128
    && 1 <= |p.primaryRunDirectory| <= MAX_PATH_LENGTH && 1 <= |p.sourceManifestPath| <= MAX_PATH_LENGTH
    && 2 <= p.artifactCount <= MAX_ARTIFACTS && 1 <= p.artifactTotalBytes <= MAX_TOTAL_BYTES
    && 2 <= |p.artifacts| <= MAX_ARTIFACTS
    && 2 <= p.directoryCount <= MAX_ARTIFACTS && 2 <= |p.directories| <= MAX_ARTIFACTS
    && |p.dependencies| <= 1
    && p.privateArtifactCount <= MAX_ARTIFACTS && p.logArtifactCount <= MAX_ARTIFACTS
    && rules.safeRunName(p.sourceRunDirectoryName)
    && p.primaryRunDirectory == RunDirectory(p.sourceRunDirectoryName)
    && p.sourceManifestPath == Under(p.primaryRunDirectory, RunManifestName())
    && Paths(p.artifacts) == SortedSet(Paths(p.artifacts))
    && p.directories == SortedSet(p.directories)
    && p.directoryCount == |p.directories|
    && p.directoryInventorySha256 == DirectoriesHash(p.directories)
    && Runs() in p.directories && p.primaryRunDirectory in p.directories
    && Portable(rules.tables, [DescriptorName()] + Paths(p.artifacts), p.directories)
    && |BindingsOf(p.artifacts, p.sourceManifestPath)| == 1
    && BindingsOf(p.artifacts, p.sourceManifestPath)[0].sha256 == p.sourceManifestFileSha256
    && p.artifactCount == |p.artifacts|
    && p.artifactTotalBytes == TotalSize(p.artifacts)
    && p.artifactInventorySha256 == InventoryHash(p.artifacts)
    && (forall i :: 0 <= i < |p.dependencies| ==> DependencyBound(p, p.dependencies[i]))
    && (forall i, path :: 0 <= i < |p.dependencies| && path in Paths(p.dependencies[i].artifacts)
          ==> path in Paths(p.artifacts))
    && (forall i, d :: 0 <= i < |p.dependencies| && d in p.dependencies[i].directories ==> d in p.directories)
    && (exists path :: path in Paths(p.artifacts) && !InDependency(p, path))
    && (forall path :: path in Paths(p.artifacts) && !InDependency(p, path) ==>
          StartsWith(path, p.primaryRunDirectory + "/"))
    && p.privateArtifactCount == CountClass(p.artifacts, "private")
    && p.logArtifactCount == CountClass(p.artifacts, "logs")
    && p.privateEvidenceIncluded == (p.privateArtifactCount > 0)
    && p.logsIncluded == (p.logArtifactCount > 0)
  }

  predicate DescriptorExact(rules: Rules, d: Descriptor) {
    && PayloadExact(rules, d.payload)
    && (forall i :: 0 <= i < |d.payload.dependencies| ==> DependencyExact(d.payload.dependencies[i]))
    && d.descriptorSha256 == PayloadHash(d.payload)
  }

  // ---------------------------------------------------------------- the builder

  datatype Manifest = Manifest(runId: string, selfSha256: nat, artifacts: seq<Binding>)

  /** One journal as it was observed: its files and directories, relative to the journal. */
  datatype Journal = Journal(reference: Reference, artifacts: seq<Binding>, directories: seq<string>)

  /** One run as it was observed: its manifest, all its files with the manifest among them, and its
      directories, relative to the run. */
  datatype Run = Run(
    manifest: Manifest,
    name: string,
    inventory: seq<Binding>,
    directories: seq<string>,
    journal: Option<Journal>)

  /** The descriptor part of `_observe_retained_journal_dependency`. */
  function BuildDependency(run: Run, j: Journal, referenceSha256: Hash): Dependency {
    var directory := JournalDirectory(j.reference.owner);
    var artifacts := PrefixAll(j.artifacts, directory);
    var directories :=
      [RunDirectory(j.reference.owner), Under(RunDirectory(j.reference.owner), "private"), directory]
      + UnderAll(directory, j.directories);
    Dependency(
      Under(RunDirectory(run.name), ReferencePath()), referenceSha256, directory, j.reference,
      |artifacts|, TotalSize(artifacts), InventoryHash(artifacts), artifacts,
      3 + |j.directories|, DirectoriesHash(directories), directories)
  }

  function Dependencies(run: Run): seq<Dependency> {
    if run.journal.None? then []
    else
      var bound := BindingsOf(run.inventory, ReferencePath());
      if bound == [] then [] else [BuildDependency(run, run.journal.value, bound[0].sha256)]
  }

  function DeliveryArtifacts(run: Run): seq<Binding> {
    var own := PrefixAll(run.inventory, RunDirectory(run.name));
    SortBindings(if Dependencies(run) == [] then own else own + Dependencies(run)[0].artifacts)
  }

  function DeliveryDirectories(run: Run): seq<string> {
    var own := [Runs(), RunDirectory(run.name)] + UnderAll(RunDirectory(run.name), run.directories);
    SortedSet(if Dependencies(run) == [] then own else own + Dependencies(run)[0].directories)
  }

  /** `_seal_descriptor` after its portability check. */
  function Seal(run: Run): Descriptor
    requires BindingsOf(DeliveryArtifacts(run), Under(RunDirectory(run.name), RunManifestName())) != []
  {
    var primary := RunDirectory(run.name);
    var manifestPath := Under(primary, RunManifestName());
    var artifacts := DeliveryArtifacts(run);
    var directories := DeliveryDirectories(run);
    var payload := Payload(
      run.manifest.runId, run.name, primary, manifestPath,
      BindingsOf(artifacts, manifestPath)[0].sha256, run.manifest.selfSha256,
      |artifacts|, TotalSize(artifacts), InventoryHash(artifacts), artifacts,
      |directories|, DirectoriesHash(directories), directories,
      Dependencies(run),
      CountClass(artifacts, "private") > 0, CountClass(artifacts, "logs") > 0,
      CountClass(artifacts, "private"), CountClass(artifacts, "logs"));
    Descriptor(payload, PayloadHash(payload))
  }

  // ---------------------------------------------------------------- what the builder is given

  /** What observing a source run establishes: strictly sorted inventories with the manifest among
      the files, and a journal exactly when the run holds a reference to one, owned by another run. */
  ghost predicate Observed(rules: Rules, run: Run) {
    && rules.safeRunName(run.name)
    && 1 <= |run.manifest.runId| <= 160
    && Ascending(Paths(run.inventory)) && Ascending(run.directories)
    && RunManifestName() in Paths(run.inventory)
    && (run.journal.Some? <==> ReferencePath() in Paths(run.inventory))
    && (run.journal.Some? ==>
          var j := run.journal.value;
          && IsName(j.reference.owner) && |j.reference.owner| <= 128
          && j.reference.owner != run.name && j.reference.consumer == run.name
          && Ascending(Paths(j.artifacts)) && Ascending(j.directories))
  }

  /** The bounds on counts and bytes, of the journal and of the whole delivery. */
  predicate WithinBounds(run: Run) {
    && 2 <= |DeliveryArtifacts(run)| <= MAX_ARTIFACTS
    && 1 <= TotalSize(DeliveryArtifacts(run)) <= MAX_TOTAL_BYTES
    && |DeliveryDirectories(run)| <= MAX_ARTIFACTS
    && (run.journal.Some? ==>
          var j := run.journal.value;
          && 1 <= |j.artifacts| <= MAX_ARTIFACTS && 1 <= TotalSize(j.artifacts) <= MAX_TOTAL_BYTES
          && 3 + |j.directories| <= MAX_ARTIFACTS)
  }

  // ---------------------------------------------------------------- sorted inventories

  lemma {:induction false} InsertBindingPaths(b: Binding, bs: seq<Binding>)
    ensures Paths(InsertBinding(b, bs)) == InsertAny(b.path, Paths(bs))
    ensures Elements(InsertBinding(b, bs)) == Elements(bs) + {b}
    decreases |bs|
  {
    if bs != [] {
      assert Paths(bs)[1..] == Paths(bs[1..]);
      InsertBindingPaths(b, bs[1..]);
      if Less(bs[0].path, b.path) {
        var rest := InsertBinding(b, bs[1..]);
        assert Paths([bs[0]] + rest) == [bs[0].path] + Paths(rest);
        assert Elements([bs[0]] + rest) == {bs[0]} + Elements(rest);
        assert bs == [bs[0]] + bs[1..];
      } else {
        assert Paths([b] + bs) == [b.path] + Paths(bs);
      }
    }
  }

  lemma {:induction false} SortBindingsPaths(bs: seq<Binding>)
    ensures Paths(SortBindings(bs)) == Sort(Paths(bs))
    ensures Elements(SortBindings(bs)) == Elements(bs)
    decreases |bs|
  {
    if bs != [] {
      assert Paths(bs)[1..] == Paths(bs[1..]);
      SortBindingsPaths(bs[1..]);
      InsertBindingPaths(bs[0], SortBindings(bs[1..]));
      assert bs == [bs[0]] + bs[1..];
    }
  }

  /** Sorting keeps the number of bindings and their bytes. */
  lemma {:induction false} SortKeepsCount(bs: seq<Binding>)
    ensures |SortBindings(bs)| == |bs| && TotalSize(SortBindings(bs)) == TotalSize(bs)
    decreases |bs|
  {
    if bs != [] {
      SortKeepsCount(bs[1..]);
      InsertCounts(bs[0], SortBindings(bs[1..]));
    }
  }

  lemma {:induction false} InsertCounts(b: Binding, bs: seq<Binding>)
    ensures |InsertBinding(b, bs)| == |bs| + 1 && TotalSize(InsertBinding(b, bs)) == TotalSize(bs) + b.size
    decreases |bs|
  {
    if bs == [] {
      assert [b][1..] == [];
    } else {
      InsertCounts(b, bs[1..]);
      var rest := InsertBinding(b, bs[1..]);
      assert ([bs[0]] + rest)[1..] == rest && ([b] + bs)[1..] == bs;
    }
  }

  lemma PathMembers(bs: seq<Binding>, path: string)
    ensures path in Paths(bs) <==> exists b :: b in bs && b.path == path
    ensures forall b :: b in bs && b.path == path ==> path in Paths(bs)
  {
    if path in Paths(bs) {
      var i :| 0 <= i < |bs| && Paths(bs)[i] == path;
      assert bs[i] in bs;
    }
    forall b | b in bs && b.path == path ensures path in Paths(bs) {
      var i :| 0 <= i < |bs| && bs[i] == b;
      assert Paths(bs)[i] == path;
    }
  }

  lemma AscendingDistinct(s: seq<string>)
    requires Ascending(s)
    ensures NoDuplicates(s)
  {
    forall i, j | 0 <= i < j < |s| ensures s[i] != s[j] { LessAsymmetric(s[i], s[j]); }
  }

  /** With distinct paths, a present path has exactly one binding. */
  lemma {:induction false} OneBinding(bs: seq<Binding>, path: string)
    requires NoDuplicates(Paths(bs))
    ensures path in Paths(bs) ==> |BindingsOf(bs, path)| == 1
    ensures path !in Paths(bs) ==> BindingsOf(bs, path) == []
    ensures forall b :: b in BindingsOf(bs, path) ==> b in bs && b.path == path
    decreases |bs|
  {
    if bs != [] {
      assert Paths(bs) == [bs[0].path] + Paths(bs[1..]);
      assert Paths(bs)[1..] == Paths(bs[1..]);
      OneBinding(bs[1..], path);
      assert forall i :: 0 <= i < |bs| - 1 ==> Paths(bs[1..])[i] == Paths(bs)[i + 1] != Paths(bs)[0];
      assert bs[0].path !in Paths(bs[1..]);
    }
  }

  lemma {:induction false} NoBinding(bs: seq<Binding>, path: string)
    ensures BindingsOf(bs, path) == [] <==> path !in Paths(bs)
    decreases |bs|
  {
    if bs != [] {
      NoBinding(bs[1..], path);
      assert Paths(bs) == [bs[0].path] + Paths(bs[1..]);
    }
  }

  /** Bindings with distinct paths that hold the same bindings in the order of their paths. */
  lemma SameBindings(a: seq<Binding>, b: seq<Binding>)
    requires Ascending(Paths(a)) && Ascending(Paths(b)) && Elements(a) == Elements(b)
    ensures a == b
  {
    forall p ensures p in Elements(Paths(a)) <==> p in Elements(Paths(b)) {
      PathMembers(a, p);
      PathMembers(b, p);
      assert forall x :: x in a <==> x in Elements(a);
      assert forall x :: x in b <==> x in Elements(b);
    }
    assert Elements(Paths(a)) == Elements(Paths(b));
    AscendingUnique(Paths(a), Paths(b));
    AscendingDistinct(Paths(a));
    assert |a| == |Paths(a)| == |Paths(b)| == |b|;
    forall i | 0 <= i < |a| ensures a[i] == b[i] {
      assert b[i] in Elements(a);
      var j :| 0 <= j < |a| && a[j] == b[i];
      assert Paths(a)[j] == Paths(b)[i] == Paths(a)[i];
    }
  }

  /** A common prefix keeps an inventory strictly sorted. */
  lemma PrefixKeepsOrder(bs: seq<Binding>, prefix: string)
    requires Ascending(Paths(bs))
    ensures Ascending(Paths(PrefixAll(bs, prefix)))
  {
    var ps := Paths(PrefixAll(bs, prefix));
    forall i, j | 0 <= i < j < |ps| ensures Less(ps[i], ps[j]) {
      assert Paths(bs)[i] == bs[i].path && Paths(bs)[j] == bs[j].path;
      UnderLess(prefix, bs[i].path, bs[j].path);
    }
  }

  lemma UnderKeepsOrder(prefix: string, names: seq<string>)
    requires Ascending(names)
    ensures Ascending(UnderAll(prefix, names))
  {
    var ps := UnderAll(prefix, names);
    forall i, j | 0 <= i < j < |ps| ensures Less(ps[i], ps[j]) {
      UnderLess(prefix, names[i], names[j]);
    }
  }

  lemma {:induction false} PrefixKeepsSize(bs: seq<Binding>, prefix: string)
    ensures TotalSize(PrefixAll(bs, prefix)) == TotalSize(bs)
    decreases |bs|
  {
    if bs != [] {
      assert PrefixAll(bs, prefix)[1..] == PrefixAll(bs[1..], prefix);
      PrefixKeepsSize(bs[1..], prefix);
    }
  }

  lemma PrefixedPath(bs: seq<Binding>, prefix: string, path: string)
    ensures path in Paths(PrefixAll(bs, prefix)) ==>
              StartsWith(path, prefix + "/") && path[|prefix| + 1..] in Paths(bs)
              && path == Under(prefix, path[|prefix| + 1..])
    ensures path in Paths(bs) ==> Under(prefix, path) in Paths(PrefixAll(bs, prefix))
  {
    if path in Paths(PrefixAll(bs, prefix)) {
      var i :| 0 <= i < |bs| && Paths(PrefixAll(bs, prefix))[i] == path;
      UnderStarts(prefix, bs[i].path);
      assert Paths(bs)[i] == bs[i].path;
    }
    if path in Paths(bs) {
      var i :| 0 <= i < |bs| && Paths(bs)[i] == path;
      assert Paths(PrefixAll(bs, prefix))[i] == Under(prefix, path);
    }
  }

  /** Nothing is below two different run directories. */
  lemma RunsSeparate(m: string, n: string, a: string, b: string)
    requires IsName(m) && IsName(n) && m != n
    ensures Under(RunDirectory(m), a) != Under(RunDirectory(n), b)
  {
    if Under(RunDirectory(m), a) == Under(RunDirectory(n), b) {
      assert Under(RunDirectory(m), a) == Under(Runs(), m + "/" + a);
      assert Under(RunDirectory(n), b) == Under(Runs(), n + "/" + b);
      UnderInjective(Runs(), m + "/" + a, n + "/" + b);
      NamesSeparate(m, n, a, b);
    }
  }

  lemma BelowJournal(owner: string, a: string)
    ensures Under(JournalDirectory(owner), a) == Under(RunDirectory(owner), JournalPath() + "/" + a)
  {
  }

  // ---------------------------------------------------------------- the dependency

  lemma JournalDirectoriesAscend(owner: string, names: seq<string>)
    requires Ascending(names)
    ensures var d := JournalDirectory(owner);
            Ascending([RunDirectory(owner), Under(RunDirectory(owner), "private"), d] + UnderAll(d, names))
  {
    var run := RunDirectory(owner);
    var d := JournalDirectory(owner);
    var top := Under(run, "private");
    assert top == run + "/private" && d == top + "/scheduler-journal";
    LessExtension(run, "/private");
    LessExtension(top, "/scheduler-journal");
    LessTransitive(run, top, d);
    UnderKeepsOrder(d, names);
    var all := [run, top, d] + UnderAll(d, names);
    forall i, j | 0 <= i < j < |all| ensures Less(all[i], all[j]) {
      if j >= 3 && i < 3 {
        LessExtension(d, "/" + names[j - 3]);
        assert all[j] == d + ("/" + names[j - 3]);
        if i < 2 { LessTransitive(all[i], d, all[j]); }
      }
    }
  }

  /** The inventories of a built dependency have the shape its validator wants. */
  lemma BuiltInventories(run: Run, j: Journal, sha: Hash)
    requires Ascending(Paths(j.artifacts)) && Ascending(j.directories)
    ensures var d := BuildDependency(run, j, sha);
            var dir := JournalDirectory(j.reference.owner);
            && Paths(d.artifacts) == SortedSet(Paths(d.artifacts))
            && (forall i :: 0 <= i < |d.artifacts| ==> StartsWith(d.artifacts[i].path, dir + "/"))
            && TotalSize(d.artifacts) == TotalSize(j.artifacts)
  {
    hide Ascending, SortedSet, Under, TotalSize, JournalDirectory;
    var d := BuildDependency(run, j, sha);
    var dir := JournalDirectory(j.reference.owner);
    PrefixKeepsOrder(j.artifacts, dir);
    IsSortedSet(Paths(d.artifacts));
    PrefixKeepsSize(j.artifacts, dir);
    forall i | 0 <= i < |d.artifacts| ensures StartsWith(d.artifacts[i].path, dir + "/") {
      UnderStarts(dir, j.artifacts[i].path);
    }
  }

  lemma BuiltDirectories(run: Run, j: Journal, sha: Hash)
    requires Ascending(j.directories)
    ensures var d := BuildDependency(run, j, sha);
            var owner := RunDirectory(j.reference.owner);
            var dir := JournalDirectory(j.reference.owner);
            && d.directories == SortedSet(d.directories)
            && (forall i :: 0 <= i < |d.directories| ==>
                  || d.directories[i] == dir || StartsWith(d.directories[i], dir + "/")
                  || d.directories[i] == owner || d.directories[i] == Under(owner, "private"))
            && owner in d.directories && Under(owner, "private") in d.directories && dir in d.directories
            && |d.directories| == 3 + |j.directories|
  {
    hide Ascending, SortedSet, Under, JournalDirectory, RunDirectory;
    var d := BuildDependency(run, j, sha);
    var dir := JournalDirectory(j.reference.owner);
    JournalDirectoriesAscend(j.reference.owner, j.directories);
    IsSortedSet(d.directories);
    forall i | 3 <= i < |d.directories| ensures StartsWith(d.directories[i], dir + "/") {
      UnderStarts(dir, j.directories[i - 3]);
    }
    assert d.directories[0] == RunDirectory(j.reference.owner) && d.directories[2] == dir;
    assert d.directories[1] == Under(RunDirectory(j.reference.owner), "private");
  }

  lemma BuiltDependencyExact(rules: Rules, run: Run)
    requires Sound(rules) && Observed(rules, run) && run.journal.Some?
    ensures |Dependencies(run)| == 1
    ensures DependencyExact(Dependencies(run)[0]) <==>
              var j := run.journal.value;
              && 1 <= |j.artifacts| <= MAX_ARTIFACTS && 1 <= TotalSize(j.artifacts) <= MAX_TOTAL_BYTES
              && 3 + |j.directories| <= MAX_ARTIFACTS
  {
    hide Ascending, SortedSet, Under, TotalSize, JournalDirectory, RunDirectory, Paths, StartsWith,
      ReferencePath, NoDuplicates, BindingsOf;
    var j := run.journal.value;
    AscendingDistinct(Paths(run.inventory));
    OneBinding(run.inventory, ReferencePath());
    var sha := BindingsOf(run.inventory, ReferencePath())[0].sha256;
    BuiltInventories(run, j, sha);
    BuiltDirectories(run, j, sha);
    ReferenceLength();
    ShortNames(run.name, ReferencePath());
    ShortJournal(j.reference.owner);
  }

  lemma ReferenceLength()
    ensures |ReferencePath()| <= 100
  {
  }

  lemma ShortJournal(owner: string)
    requires |owner| <= 128
    ensures 1 <= |JournalDirectory(owner)| <= MAX_PATH_LENGTH
  {
  }

  lemma ShortNames(name: string, tail: string)
    requires |name| <= 128 && |tail| <= 100
    ensures 1 <= |RunDirectory(name)| <= MAX_PATH_LENGTH
    ensures 1 <= |Under(RunDirectory(name), tail)| <= MAX_PATH_LENGTH
  {
  }

  // ---------------------------------------------------------------- the whole delivery

  function OwnArtifacts(run: Run): seq<Binding> {
    PrefixAll(run.inventory, RunDirectory(run.name))
  }

  function JournalArtifacts(run: Run): seq<Binding> {
    if run.journal.None? then []
    else PrefixAll(run.journal.value.artifacts, JournalDirectory(run.journal.value.reference.owner))
  }

  /** Own and journal artifacts never share a path. */
  lemma ArtifactsDistinct(rules: Rules, run: Run)
    requires Sound(rules) && Observed(rules, run)
    ensures NoDuplicates(Paths(OwnArtifacts(run) + JournalArtifacts(run)))
    ensures forall p :: p in Paths(OwnArtifacts(run)) ==> p !in Paths(JournalArtifacts(run))
  {
    hide Ascending, NoDuplicates, Under, RunDirectory, JournalDirectory, Runs, ReferencePath,
      RunManifestName, JournalPath;
    var own, other := OwnArtifacts(run), JournalArtifacts(run);
    PrefixKeepsOrder(run.inventory, RunDirectory(run.name));
    AscendingDistinct(Paths(own));
    NoneDistinct();
    if run.journal.Some? {
      var j := run.journal.value;
      PrefixKeepsOrder(j.artifacts, JournalDirectory(j.reference.owner));
      AscendingDistinct(Paths(other));
      forall p | p in Paths(own) ensures p !in Paths(other) { OwnNotJournal(run, p); }
    }
    assert Paths(own + other) == Paths(own) + Paths(other);
    ConcatDistinct(Paths(own), Paths(other));
  }

  lemma NoneDistinct()
    ensures NoDuplicates<string>([])
  {
  }

  lemma ConcatDistinct<T>(a: seq<T>, b: seq<T>)
    requires NoDuplicates(a) && NoDuplicates(b) && forall x :: x in a ==> x !in b
    ensures NoDuplicates(a + b)
  {
    var s := a + b;
    forall i, j | 0 <= i < j < |s| ensures s[i] != s[j] {
      if i < |a| && |a| <= j { assert s[i] in a && s[j] in b; }
    }
  }

  lemma OwnNotJournal(run: Run, p: string)
    requires run.journal.Some? && IsName(run.name) && IsName(run.journal.value.reference.owner)
    requires run.name != run.journal.value.reference.owner
    requires p in Paths(OwnArtifacts(run))
    ensures p !in Paths(JournalArtifacts(run))
  {
    hide Under, RunDirectory, JournalDirectory, JournalPath;
    var owner := run.journal.value.reference.owner;
    PrefixedPath(run.inventory, RunDirectory(run.name), p);
    PrefixedPath(run.journal.value.artifacts, JournalDirectory(owner), p);
    var a := p[|RunDirectory(run.name)| + 1..];
    forall b ensures p != Under(JournalDirectory(owner), b) {
      BelowJournal(owner, b);
      RunsSeparate(run.name, owner, a, JournalPath() + "/" + b);
    }
  }

  lemma DependenciesShape(rules: Rules, run: Run)
    requires Sound(rules) && Observed(rules, run)
    ensures run.journal.None? ==> Dependencies(run) == []
    ensures run.journal.Some? ==>
              |Dependencies(run)| == 1 && Dependencies(run)[0].artifacts == JournalArtifacts(run)
  {
    AscendingDistinct(Paths(run.inventory));
    OneBinding(run.inventory, ReferencePath());
  }

  lemma JournalNone(run: Run)
    ensures run.journal.None? ==> JournalArtifacts(run) == []
  {
  }

  lemma OwnArtifactsIs(run: Run)
    ensures PrefixAll(run.inventory, RunDirectory(run.name)) == OwnArtifacts(run)
  {
  }

  /** The delivery holds exactly the own and the journal artifacts, strictly sorted by path. */
  lemma ArtifactsExact(rules: Rules, run: Run)
    requires Sound(rules) && Observed(rules, run)
    ensures Ascending(Paths(DeliveryArtifacts(run)))
    ensures Elements(DeliveryArtifacts(run)) == Elements(OwnArtifacts(run)) + Elements(JournalArtifacts(run))
    ensures |DeliveryArtifacts(run)| == |OwnArtifacts(run)| + |JournalArtifacts(run)|
  {
    hide Dependencies, Sort, SortBindings, Ascending, NoDuplicates, OwnArtifacts, JournalArtifacts,
      Observed, Sound;
    DependenciesShape(rules, run);
    JournalNone(run);
    OwnArtifactsIs(run);
    var all := OwnArtifacts(run) + JournalArtifacts(run);
    assert OwnArtifacts(run) + [] == OwnArtifacts(run);
    assert DeliveryArtifacts(run) == SortBindings(all);
    ArtifactsDistinct(rules, run);
    SortBindingsPaths(all);
    SortDistinct(Paths(all));
    DistinctSize(Paths(all));
    AscendingSize(Paths(DeliveryArtifacts(run)));
    assert |Paths(all)| == |all| && |Paths(DeliveryArtifacts(run))| == |DeliveryArtifacts(run)|;
    assert Elements(all) == Elements(OwnArtifacts(run)) + Elements(JournalArtifacts(run));
  }

  /** A path of the delivery is a path of the run or of its journal, and not of both. */
  lemma DeliveryPath(rules: Rules, run: Run, path: string)
    requires Sound(rules) && Observed(rules, run)
    ensures path in Paths(DeliveryArtifacts(run)) <==>
              path in Paths(OwnArtifacts(run)) || path in Paths(JournalArtifacts(run))
    ensures path in Paths(OwnArtifacts(run)) ==> path !in Paths(JournalArtifacts(run))
  {
    hide Ascending;
    ArtifactsExact(rules, run);
    ArtifactsDistinct(rules, run);
    PathMembers(DeliveryArtifacts(run), path);
    PathMembers(OwnArtifacts(run), path);
    PathMembers(JournalArtifacts(run), path);
    assert forall x :: x in DeliveryArtifacts(run) <==> x in Elements(DeliveryArtifacts(run));
    assert forall x :: x in OwnArtifacts(run) <==> x in Elements(OwnArtifacts(run));
    assert forall x :: x in JournalArtifacts(run) <==> x in Elements(JournalArtifacts(run));
  }

  /** A file of the run has exactly one binding in the delivery, with the same digest and size. */
  lemma OwnBinding(rules: Rules, run: Run, path: string)
    requires Sound(rules) && Observed(rules, run) && path in Paths(run.inventory)
    ensures var bound := BindingsOf(DeliveryArtifacts(run), Under(RunDirectory(run.name), path));
            && |bound| == 1 && |BindingsOf(run.inventory, path)| == 1
            && bound[0] == Prefixed(BindingsOf(run.inventory, path)[0], RunDirectory(run.name))
  {
    hide Ascending, Observed;
    var prefix := RunDirectory(run.name);
    ObservedOrder(rules, run);
    AscendingDistinct(Paths(run.inventory));
    OneBinding(run.inventory, path);
    var b := BindingsOf(run.inventory, path)[0];
    var target := Under(prefix, path);
    ArtifactsExact(rules, run);
    AscendingDistinct(Paths(DeliveryArtifacts(run)));
    PrefixedPath(run.inventory, prefix, path);
    DeliveryPath(rules, run, target);
    OneBinding(DeliveryArtifacts(run), target);
    var c := BindingsOf(DeliveryArtifacts(run), target)[0];
    PrefixedMember(run.inventory, prefix, b);
    assert Prefixed(b, prefix) in Elements(DeliveryArtifacts(run));
    SamePath(DeliveryArtifacts(run), c, Prefixed(b, prefix));
  }

  lemma ObservedOrder(rules: Rules, run: Run)
    requires Observed(rules, run)
    ensures Ascending(Paths(run.inventory)) && Ascending(run.directories)
  {
  }

  lemma PrefixedMember(bs: seq<Binding>, prefix: string, b: Binding)
    requires b in bs
    ensures Prefixed(b, prefix) in PrefixAll(bs, prefix)
  {
    var i :| 0 <= i < |bs| && bs[i] == b;
    assert PrefixAll(bs, prefix)[i] == Prefixed(b, prefix);
  }

  lemma SamePath(bs: seq<Binding>, b: Binding, c: Binding)
    requires NoDuplicates(Paths(bs)) && b in bs && c in bs && b.path == c.path
    ensures b == c
  {
    var i :| 0 <= i < |bs| && bs[i] == b;
    var j :| 0 <= j < |bs| && bs[j] == c;
    assert Paths(bs)[i] == Paths(bs)[j];
  }

  lemma {:induction false} CountClassBound(bs: seq<Binding>, directory: string)
    ensures CountClass(bs, directory) <= |bs|
    decreases |bs|
  {
    if bs != [] { CountClassBound(bs[1..], directory); }
  }

  lemma DirectoriesExact(run: Run)
    ensures Ascending(DeliveryDirectories(run)) && |DeliveryDirectories(run)| >= 2
    ensures Runs() in DeliveryDirectories(run) && RunDirectory(run.name) in DeliveryDirectories(run)
    ensures forall i, d :: 0 <= i < |Dependencies(run)| && d in Dependencies(run)[i].directories
              ==> d in DeliveryDirectories(run)
  {
    hide Dependencies, SortedSet, Ascending, UnderAll, Runs, RunDirectory;
    DependencyCount(run);
    var own := [Runs(), RunDirectory(run.name)] + UnderAll(RunDirectory(run.name), run.directories);
    var all := if Dependencies(run) == [] then own else own + Dependencies(run)[0].directories;
    SortedSetCorrect(all);
    var ds := DeliveryDirectories(run);
    assert ds == SortedSet(all);
    assert forall x :: x in all ==> x in Elements(all);
    assert forall x :: x in Elements(ds) ==> x in ds;
    assert all[0] == Runs() && all[1] == RunDirectory(run.name);
    RunBelowRuns(run.name);
    assert Runs() in Elements(ds) && RunDirectory(run.name) in Elements(ds);
    var i :| 0 <= i < |ds| && ds[i] == Runs();
    var j :| 0 <= j < |ds| && ds[j] == RunDirectory(run.name);
    assert i != j;
  }

  lemma DependencyCount(run: Run)
    ensures |Dependencies(run)| <= 1
  {
  }

  lemma RunBelowRuns(name: string)
    ensures Runs() != RunDirectory(name)
  {
    assert |RunDirectory(name)| > |Runs()|;
  }

  lemma SealedDependency(rules: Rules, run: Run)
    requires Sound(rules) && Observed(rules, run) && run.journal.Some?
    ensures |Dependencies(run)| == 1
    ensures var d := Dependencies(run)[0];
            && d.reference.consumer == run.name
            && d.referencePath == Under(RunDirectory(run.name), ReferencePath())
            && |BindingsOf(DeliveryArtifacts(run), d.referencePath)| == 1
            && BindingsOf(DeliveryArtifacts(run), d.referencePath)[0].sha256 == d.referenceFileSha256
  {
    hide Ascending, NoDuplicates, BindingsOf, DeliveryArtifacts, Under, RunDirectory, JournalDirectory,
      ReferencePath, RunManifestName, Dependencies, Paths, Sound;
    OwnBinding(rules, run, ReferencePath());
    DependencyIs(rules, run);
  }

  lemma DependencyIs(rules: Rules, run: Run)
    requires Observed(rules, run) && run.journal.Some?
    ensures BindingsOf(run.inventory, ReferencePath()) != []
    ensures Dependencies(run) ==
            [BuildDependency(run, run.journal.value, BindingsOf(run.inventory, ReferencePath())[0].sha256)]
  {
    hide Ascending, NoDuplicates, BindingsOf, ReferencePath, RunManifestName;
    AscendingDistinct(Paths(run.inventory));
    OneBinding(run.inventory, ReferencePath());
  }

  ghost predicate Deliverable(rules: Rules, run: Run) {
    && WithinBounds(run)
    && Portable(rules.tables, [DescriptorName()] + Paths(DeliveryArtifacts(run)), DeliveryDirectories(run))
  }

  /** The payload's clauses about which artifacts belong to what. */
  lemma SealedPaths(rules: Rules, run: Run, p: Payload)
    requires Sound(rules) && Observed(rules, run)
    requires p.artifacts == DeliveryArtifacts(run) && p.dependencies == Dependencies(run)
    ensures forall path :: InDependency(p, path) <==> path in Paths(JournalArtifacts(run))
    ensures forall path :: InDependency(p, path) ==> path in Paths(p.artifacts)
    ensures exists path :: path in Paths(p.artifacts) && !InDependency(p, path)
    ensures forall path :: path in Paths(p.artifacts) && !InDependency(p, path) ==>
              StartsWith(path, RunDirectory(run.name) + "/")
  {
    hide Ascending, NoDuplicates, BindingsOf, DeliveryArtifacts, Under, RunDirectory, JournalDirectory,
      ReferencePath, RunManifestName, Dependencies, StartsWith;
    DependenciesShape(rules, run);
    assert Paths([]) == [];
    forall path ensures InDependency(p, path) <==> path in Paths(JournalArtifacts(run)) {
      if path in Paths(JournalArtifacts(run)) { assert path in Paths(p.dependencies[0].artifacts); }
    }
    forall path ensures path in Paths(p.artifacts) <==>
        path in Paths(OwnArtifacts(run)) || path in Paths(JournalArtifacts(run))
      ensures path in Paths(OwnArtifacts(run)) ==> path !in Paths(JournalArtifacts(run))
    {
      DeliveryPath(rules, run, path);
    }
    forall path | path in Paths(OwnArtifacts(run)) ensures StartsWith(path, RunDirectory(run.name) + "/") {
      PrefixedPath(run.inventory, RunDirectory(run.name), path);
    }
    PrefixedPath(run.inventory, RunDirectory(run.name), RunManifestName());
    var manifest := Under(RunDirectory(run.name), RunManifestName());
    assert manifest in Paths(p.artifacts) && !InDependency(p, manifest);
  }

  lemma NameLengths(rules: Rules, run: Run)
    requires Sound(rules) && Observed(rules, run)
    ensures 1 <= |run.name| <= 128
    ensures 1 <= |RunDirectory(run.name)| <= MAX_PATH_LENGTH
    ensures 1 <= |Under(RunDirectory(run.name), RunManifestName())| <= MAX_PATH_LENGTH
  {
    hide Ascending;
    ShortNames(run.name, RunManifestName());
  }

  /** The builder meets its validators: for every observed run the sealed descriptor passes both
      inventory validators exactly when the counts, the bytes and the path spellings are within
      their limits. */
  lemma SealMeetsValidators(rules: Rules, run: Run)
    requires Sound(rules) && Observed(rules, run)
    ensures BindingsOf(DeliveryArtifacts(run), Under(RunDirectory(run.name), RunManifestName())) != []
    ensures DescriptorExact(rules, Seal(run)) <==> Deliverable(rules, run)
  {
    hide Ascending, NoDuplicates, BindingsOf, DeliveryArtifacts, Under, RunDirectory, JournalDirectory,
      ReferencePath, RunManifestName, DescriptorName, Dependencies, StartsWith, CountClass, TotalSize,
      Portable, DependencyExact, DeliveryDirectories, SortedSet, InDependency, Sound, Paths;
    OwnBinding(rules, run, RunManifestName());
    ArtifactsExact(rules, run);
    IsSortedSet(Paths(DeliveryArtifacts(run)));
    DirectoriesExact(run);
    IsSortedSet(DeliveryDirectories(run));
    NameLengths(rules, run);
    CountClassBound(DeliveryArtifacts(run), "private");
    CountClassBound(DeliveryArtifacts(run), "logs");
    DependenciesShape(rules, run);
    SealedPaths(rules, run, Seal(run).payload);
    if run.journal.Some? {
      BuiltDependencyExact(rules, run);
      SealedDependency(rules, run);
    }
  }

  // ---------------------------------------------------------------- nothing is lost

  /** The bindings below a directory, relative to it. */
  function Stripped(bs: seq<Binding>, prefix: string): seq<Binding> {
    if bs == [] then []
    else (if StartsWith(bs[0].path, prefix + "/") then [bs[0].(path := bs[0].path[|prefix| + 1..])] else [])
         + Stripped(bs[1..], prefix)
  }

  lemma {:induction false} StrippedMembers(bs: seq<Binding>, prefix: string, b: Binding)
    ensures b in Stripped(bs, prefix) <==> Prefixed(b, prefix) in bs
    decreases |bs|
  {
    if bs != [] {
      StrippedMembers(bs[1..], prefix, b);
      UnderStarts(prefix, b.path);
      var head := bs[0];
      if StartsWith(head.path, prefix + "/") {
        assert head.path == Under(prefix, head.path[|prefix| + 1..]);
      }
    }
  }

  lemma {:induction false} StrippedAscends(bs: seq<Binding>, prefix: string)
    requires Ascending(Paths(bs))
    ensures Ascending(Paths(Stripped(bs, prefix)))
    decreases |bs|
  {
    if bs != [] {
      var head, rest := bs[0], Stripped(bs[1..], prefix);
      assert Paths(bs)[1..] == Paths(bs[1..]);
      AscendingTail(Paths(bs));
      StrippedAscends(bs[1..], prefix);
      if StartsWith(head.path, prefix + "/") {
        var name := head.path[|prefix| + 1..];
        assert head.path == Under(prefix, name);
        forall x | x in Paths(rest) ensures Less(name, x) {
          PathMembers(rest, x);
          var b :| b in rest && b.path == x;
          StrippedMembers(bs[1..], prefix, b);
          PathMembers(bs[1..], Under(prefix, x));
          UnderLess(prefix, name, x);
        }
        AscendingCons(name, Paths(rest));
        assert Paths(Stripped(bs, prefix)) == [name] + Paths(rest);
      } else {
        assert Stripped(bs, prefix) == rest;
      }
    }
  }

  /** Stripping the run directory from the sealed artifacts gives back the source inventory. */
  lemma SealKeepsInventory(rules: Rules, run: Run)
    requires Sound(rules) && Observed(rules, run)
    ensures Stripped(DeliveryArtifacts(run), RunDirectory(run.name)) == run.inventory
  {
    hide Ascending, DeliveryArtifacts, JournalDirectory, Under, RunDirectory, Stripped;
    var prefix := RunDirectory(run.name);
    var stripped := Stripped(DeliveryArtifacts(run), prefix);
    ArtifactsExact(rules, run);
    StrippedAscends(DeliveryArtifacts(run), prefix);
    forall b ensures b in Elements(stripped) <==> b in Elements(run.inventory) {
      StrippedMembers(DeliveryArtifacts(run), prefix, b);
      assert Prefixed(b, prefix) in DeliveryArtifacts(run) <==> Prefixed(b, prefix) in Elements(DeliveryArtifacts(run));
      OwnMember(rules, run, b);
    }
    assert Elements(stripped) == Elements(run.inventory);
    SameBindings(stripped, run.inventory);
  }

  /** No path of the run is a path of the journal. */
  lemma NotOfJournal(rules: Rules, run: Run, path: string)
    requires Sound(rules) && Observed(rules, run)
    ensures Under(RunDirectory(run.name), path) !in Paths(JournalArtifacts(run))
  {
    hide Ascending, RunDirectory, JournalDirectory, Under, JournalPath, ReferencePath, RunManifestName, Paths;
    if run.journal.Some? {
      var owner := run.journal.value.reference.owner;
      var k := Under(RunDirectory(run.name), path);
      PrefixedPath(run.journal.value.artifacts, JournalDirectory(owner), k);
      forall b ensures k != Under(JournalDirectory(owner), b) {
        BelowJournal(owner, b);
        RunsSeparate(run.name, owner, path, JournalPath() + "/" + b);
      }
    } else {
      NoPaths();
    }
  }

  lemma NoPaths()
    ensures Paths([]) == []
  {
  }

  lemma OwnMember(rules: Rules, run: Run, b: Binding)
    requires Sound(rules) && Observed(rules, run)
    ensures b in run.inventory <==>
              Prefixed(b, RunDirectory(run.name)) in Elements(OwnArtifacts(run)) + Elements(JournalArtifacts(run))
  {
    hide Observed, Sound, RunDirectory, JournalDirectory, Under, JournalArtifacts, Paths;
    var prefix := RunDirectory(run.name);
    var c := Prefixed(b, prefix);
    if b in run.inventory { PrefixedMember(run.inventory, prefix, b); }
    if c in OwnArtifacts(run) {
      var i :| 0 <= i < |run.inventory| && OwnArtifacts(run)[i] == c;
      UnderInjective(prefix, run.inventory[i].path, b.path);
    }
    NotOfJournal(rules, run, b.path);
    PathMembers(JournalArtifacts(run), c.path);
  }
}
