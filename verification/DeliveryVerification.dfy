/** Verification of a forensic delivery: the checks made on a wrapper directory that nobody changes
    meanwhile, and what a wrapper that passes them is known to hold. */
module DeliveryVerification {
  import opened Text
  import opened Trees
  import opened Delivery
  import DirectoryInventory

  const MAX_EVIDENCE_BYTES := 100_000_000
  const MAX_MANIFEST_FILES := 100_000
  const MAX_MANIFEST_BYTES := 4_294_967_296

  function MarkerName(): string { "INCOMPLETE_FORENSIC_EXPORT" }

  function PublicSubsetName(): string { "public-evidence-subset-manifest.json" }

  /** The rules and formats the checks rely on. `collectable` is the test on a relative path and on
      whether it names a directory; `semantic` stands for the cross-artifact checks made on a
      manifest, its run and the journal the run refers to, beyond where that journal is kept. */
  datatype Context = Context(
    rules: Rules,
    safe: string -> bool,
    collectable: (string, bool) -> bool,
    parseManifest: Bytes -> Option<Manifest>,
    parseReference: Bytes -> Option<Reference>,
    parseDescriptor: Bytes -> Option<Descriptor>,
    encodeDescriptor: Descriptor -> Bytes,
    semantic: (Manifest, Tree, Option<Tree>) -> bool)

  // ---------------------------------------------------------------- the files of a directory

  function Bind(k: string, node: Node): Binding
    requires node.File?
  {
    Binding(k, FileHash(node.content), |node.content|)
  }

  /** The files that collection binds: all but the run manifest. */
  predicate Collects(tree: Tree, k: string) {
    k in tree && tree[k].File? && k != RunManifestName()
  }

  ghost function FileBindings(tree: Tree): set<Binding> {
    set k | k in tree.Keys && Collects(tree, k) :: Bind(k, tree[k])
  }

  predicate EntryAllowed(c: Context, tree: Tree, k: string)
    requires k in tree
  {
    && (tree[k] == Directory || (tree[k].File? && tree[k].links == 1))
    && c.collectable(k, tree[k] == Directory)
  }

  ghost predicate AllAllowed(c: Context, tree: Tree) {
    forall k :: k in tree && k != "" && k != RunManifestName() ==> EntryAllowed(c, tree, k)
  }

  /** `bs` is what `collect_run_artifacts` returns. */
  ghost predicate Collected(c: Context, tree: Tree, bs: seq<Binding>) {
    && AllAllowed(c, tree)
    && 1 <= |bs| <= MAX_MANIFEST_FILES && TotalSize(bs) <= MAX_MANIFEST_BYTES
    && Ascending(Paths(bs)) && Elements(bs) == FileBindings(tree)
  }

  lemma CollectedUnique(c: Context, tree: Tree, a: seq<Binding>, b: seq<Binding>)
    requires Collected(c, tree, a) && Collected(c, tree, b)
    ensures a == b
  {
    SameBindings(a, b);
  }

  /** All keys of a tree but the root, in order. */
  method SortedKeys(tree: Tree) returns (keys: seq<string>)
    ensures Ascending(keys) && Elements(keys) == tree.Keys - {""}
  {
    var rest := tree.Keys - {""};
    keys := [];
    while rest != {}
      invariant rest <= tree.Keys - {""}
      invariant Ascending(keys) && Elements(keys) == tree.Keys - {""} - rest
      decreases |rest|
    {
      var k :| k in rest;
      InsertAscends(k, keys);
      keys := Insert(k, keys);
      rest := rest - {k};
    }
  }

  /** The bindings of the files among `keys`. */
  function Gather(tree: Tree, keys: seq<string>): seq<Binding> {
    if keys == [] then []
    else
      var n := |keys| - 1;
      Gather(tree, keys[..n]) + (if Collects(tree, keys[n]) then [Bind(keys[n], tree[keys[n]])] else [])
  }

  lemma GatherNext(tree: Tree, keys: seq<string>, i: nat)
    requires i < |keys|
    ensures Gather(tree, keys[..i + 1]) ==
            Gather(tree, keys[..i]) + (if Collects(tree, keys[i]) then [Bind(keys[i], tree[keys[i]])] else [])
  {
    assert keys[..i + 1][..i] == keys[..i];
  }

  lemma {:induction false} TotalSizeAppend(a: seq<Binding>, b: seq<Binding>)
    ensures TotalSize(a + b) == TotalSize(a) + TotalSize(b)
    decreases |a|
  {
    if a == [] {
      assert a + b == b;
    } else {
      assert (a + b)[1..] == a[1..] + b;
      TotalSizeAppend(a[1..], b);
    }
  }

  /** Gathering less never gives more. */
  lemma {:induction false} GatherGrows(tree: Tree, keys: seq<string>, i: nat)
    requires i <= |keys|
    ensures |Gather(tree, keys[..i])| <= |Gather(tree, keys)|
    ensures TotalSize(Gather(tree, keys[..i])) <= TotalSize(Gather(tree, keys))
    decreases |keys| - i
  {
    if i == |keys| {
      assert keys[..i] == keys;
    } else {
      GatherNext(tree, keys, i);
      GatherGrows(tree, keys, i + 1);
      if Collects(tree, keys[i]) {
        TotalSizeAppend(Gather(tree, keys[..i]), [Bind(keys[i], tree[keys[i]])]);
      } else {
        assert Gather(tree, keys[..i]) + [] == Gather(tree, keys[..i]);
      }
    }
  }

  lemma {:induction false} GatherMembers(tree: Tree, keys: seq<string>)
    ensures Elements(Gather(tree, keys)) == set k | k in keys && Collects(tree, k) :: Bind(k, tree[k])
    ensures forall p :: p in Paths(Gather(tree, keys)) ==> p in keys
    decreases |keys|
  {
    if keys != [] {
      var n := |keys| - 1;
      GatherMembers(tree, keys[..n]);
      assert keys == keys[..n] + [keys[n]];
      var before := Gather(tree, keys[..n]);
      if Collects(tree, keys[n]) {
        var b := Bind(keys[n], tree[keys[n]]);
        assert Paths(before + [b]) == Paths(before) + [b.path];
        assert Elements(before + [b]) == Elements(before) + {b};
      } else {
        assert before + [] == before;
      }
    }
  }

  lemma {:induction false} GatherAscends(tree: Tree, keys: seq<string>)
    requires Ascending(keys)
    ensures Ascending(Paths(Gather(tree, keys)))
    decreases |keys|
  {
    if keys != [] {
      var n := |keys| - 1;
      GatherAscends(tree, keys[..n]);
      GatherMembers(tree, keys[..n]);
      var before := Gather(tree, keys[..n]);
      if Collects(tree, keys[n]) {
        var b := Bind(keys[n], tree[keys[n]]);
        assert Paths(before + [b]) == Paths(before) + [b.path];
        forall p | p in Paths(before) ensures Less(p, keys[n]) { assert p in keys[..n]; }
        AscendingSnoc(Paths(before), b.path);
      } else {
        assert before + [] == before;
      }
    }
  }

  lemma AscendingSnoc(s: seq<string>, x: string)
    requires Ascending(s) && forall y :: y in s ==> Less(y, x)
    ensures Ascending(s + [x])
  {
  }

  lemma GatherAll(tree: Tree, keys: seq<string>)
    requires Ascending(keys) && Elements(keys) == tree.Keys - {""}
    requires "" in tree ==> tree[""] == Directory
    ensures Ascending(Paths(Gather(tree, keys))) && Elements(Gather(tree, keys)) == FileBindings(tree)
  {
    GatherAscends(tree, keys);
    GatherMembers(tree, keys);
    forall k ensures k in keys && Collects(tree, k) <==> k in tree.Keys && Collects(tree, k) {
      assert k in keys <==> k in Elements(keys);
    }
    assert FileBindings(tree) == set k | k in keys && Collects(tree, k) :: Bind(k, tree[k]);
  }

  lemma CollectedIsGathered(c: Context, tree: Tree, keys: seq<string>, bs: seq<Binding>)
    requires Ascending(keys) && Elements(keys) == tree.Keys - {""}
    requires "" in tree ==> tree[""] == Directory
    requires Collected(c, tree, bs)
    ensures bs == Gather(tree, keys)
  {
    GatherAll(tree, keys);
    SameBindings(bs, Gather(tree, keys));
  }

  /** `_collect_artifacts`: the bindings of all files below a directory, sorted by path. */
  method CollectRunArtifacts(c: Context, tree: Tree) returns (r: Result<seq<Binding>>)
    requires WellFormed(tree)
    ensures r.Ok? ==> Collected(c, tree, r.value)
    ensures r.Err? ==> forall bs :: !Collected(c, tree, bs)
  {
    hide WellFormed, Ascending, FileBindings, Gather, TotalSize, Paths, RunManifestName;
    var keys := SortedKeys(tree);
    var artifacts: seq<Binding> := [];
    var total := 0;
    assert tree[""] == Directory by { RootIsDirectory(tree); }
    EmptyGather(tree, keys);
    var i := 0;
    while i < |keys|
      invariant i <= |keys|
      invariant artifacts == Gather(tree, keys[..i])
      invariant total == TotalSize(artifacts) <= MAX_MANIFEST_BYTES && |artifacts| <= MAX_MANIFEST_FILES
      invariant forall j :: 0 <= j < i && keys[j] != RunManifestName() ==>
        keys[j] in tree && EntryAllowed(c, tree, keys[j])
    {
      var k := keys[i];
      assert k in Elements(keys);
      GatherNext(tree, keys, i);
      assert artifacts + [] == artifacts;
      if k != RunManifestName() {
        if !EntryAllowed(c, tree, k) {
          return Err;
        }
        if tree[k].File? {
          var b := Bind(k, tree[k]);
          TotalSizeAppend(artifacts, [b]);
          OneSize(b);
          if b.size > MAX_MANIFEST_BYTES - total || |artifacts| + 1 > MAX_MANIFEST_FILES {
            GatherGrows(tree, keys, i + 1);
            forall bs ensures !Collected(c, tree, bs) {
              if Collected(c, tree, bs) { CollectedIsGathered(c, tree, keys, bs); }
            }
            return Err;
          }
          total := total + b.size;
          artifacts := artifacts + [b];
        }
      }
      i := i + 1;
    }
    assert keys[..|keys|] == keys;
    GatherAll(tree, keys);
    if artifacts == [] {
      forall bs ensures !Collected(c, tree, bs) {
        if Collected(c, tree, bs) { CollectedIsGathered(c, tree, keys, bs); }
      }
      return Err;
    }
    forall k | k in tree && k != "" && k != RunManifestName() ensures EntryAllowed(c, tree, k) {
      assert k in Elements(keys);
    }
    return Ok(artifacts);
  }

  lemma RootIsDirectory(tree: Tree)
    requires WellFormed(tree)
    ensures "" in tree && tree[""] == Directory
  {
  }

  lemma EmptyGather(tree: Tree, keys: seq<string>)
    ensures Gather(tree, keys[..0]) == [] && TotalSize([]) == 0
  {
  }

  lemma OneSize(b: Binding)
    ensures TotalSize([b]) == b.size
  {
    assert [b][1..] == [];
  }

  // ---------------------------------------------------------------- one complete run

  predicate BoundedFile(tree: Tree, k: string) {
    k in tree && tree[k].File? && tree[k].links == 1 && |tree[k].content| <= MAX_EVIDENCE_BYTES
  }

  predicate IsDirectory(tree: Tree, k: string) {
    k in tree && tree[k] == Directory
  }

  /** The manifest's own validator, as far as it concerns paths. */
  predicate ManifestExact(m: Manifest) {
    && 1 <= |m.runId| <= 128
    && 1 <= |m.artifacts| <= MAX_MANIFEST_FILES
    && Paths(m.artifacts) == SortedSet(Paths(m.artifacts))
    && RunManifestName() !in Paths(m.artifacts)
  }

  /** The reference's own validator, as far as it concerns the two runs. */
  predicate ReferenceExact(reference: Reference) {
    IsName(reference.owner) && |reference.owner| <= 128 && reference.owner != reference.consumer
  }

  /** The sibling journal that the reference inside a run points to. */
  function SiblingJournal(c: Context, runs: Tree, run: Tree): Option<Tree> {
    if ReferencePath() in run && run[ReferencePath()].File? then
      match c.parseReference(run[ReferencePath()].content)
      case Some(reference) =>
        if IsDirectory(runs, Under(reference.owner, JournalPath()))
        then Some(Subtree(runs, Under(reference.owner, JournalPath()))) else None
      case None => None
    else None
  }

  function SchedulerStateName(): string { "scheduler-state.json" }

  function TerminalAuthorityName(): string { "terminal-report-authority.json" }

  function ControlFiles(): set<string> {
    {".scheduler.lock", "manifest.json", "analysis-input-inventory.json"}
  }

  function ControlDirectories(): set<string> {
    {"activations", "events", "pass-plans", "pass-results", "task-outputs", "task-results", "provider-attempts"}
  }

  /** `_validate_control_layout`: the fixed names at the root of a scheduler journal, and one optional. */
  predicate ControlLayout(journal: Tree) {
    var observed := Listing(journal, "");
    && observed - {TerminalAuthorityName()} == ControlFiles() + ControlDirectories()
    && (forall n :: n in ControlDirectories() ==> IsDirectory(journal, n))
    && (forall n :: n in ControlFiles() ==> n in journal && journal[n].File? && journal[n].links == 1)
    && (TerminalAuthorityName() in observed ==>
          TerminalAuthorityName() in journal && journal[TerminalAuthorityName()].File?
          && journal[TerminalAuthorityName()].links == 1)
  }

  /** The bytes are a valid reference of the run `name` to another run. */
  predicate ReferenceTo(c: Context, name: string, content: Bytes) {
    var reference := c.parseReference(content);
    reference.Some? && ReferenceExact(reference.value) && reference.value.consumer == name
  }

  /** Where a run with scheduler state keeps its journal: in itself, or beside it under a reference to
      another run, and never both. The journal has the control layout. */
  predicate SchedulerCustody(c: Context, name: string, run: Tree, sibling: Option<Tree>) {
    SchedulerStateName() in run ==>
      if JournalPath() in run then
        ReferencePath() !in run && IsDirectory(run, JournalPath()) && ControlLayout(Subtree(run, JournalPath()))
      else
        && ReferencePath() in run && run[ReferencePath()].File?
        && ReferenceTo(c, name, run[ReferencePath()].content)
        && sibling.Some? && ControlLayout(sibling.value)
  }

  /** The checks across the artifacts of a run: the scheduler's custody, and the others as one test. */
  predicate CrossChecked(c: Context, name: string, m: Manifest, run: Tree, sibling: Option<Tree>) {
    SchedulerCustody(c, name, run, sibling) && c.semantic(m, run, sibling)
  }

  function RunInventory(m: Manifest, run: Tree): seq<Binding>
    requires BoundedFile(run, RunManifestName())
  {
    SortBindings(m.artifacts + [Bind(RunManifestName(), run[RunManifestName()])])
  }

  /** `_observe_complete_run` reads manifest `m` and passes on this run. */
  ghost predicate RunValid(c: Context, runs: Tree, name: string, m: Manifest) {
    && name != "" && IsDirectory(runs, name)
    && var run := Subtree(runs, name);
    && PublicSubsetName() !in Listing(run, "")
    && BoundedFile(run, RunManifestName())
    && c.parseManifest(run[RunManifestName()].content) == Some(m)
    && ManifestExact(m)
    && Collected(c, run, m.artifacts)
    && CrossChecked(c, name, m, run, SiblingJournal(c, runs, run))
    && |RunInventory(m, run)| <= MAX_ARTIFACTS
    && TotalSize(RunInventory(m, run)) <= MAX_TOTAL_BYTES
  }

  /** Two dictionaries of bindings: the same paths, and for each path the same digest and size. */
  predicate SameDictionary(a: seq<Binding>, b: seq<Binding>) {
    && (forall x :: x in a ==> x.path in Paths(b))
    && (forall y :: y in b ==> y.path in Paths(a))
    && (forall x, y :: x in a && y in b && x.path == y.path ==> x.size == y.size && x.sha256 == y.sha256)
  }

  lemma SameDictionaryIsEqual(a: seq<Binding>, b: seq<Binding>)
    requires Ascending(Paths(a)) && Ascending(Paths(b))
    ensures SameDictionary(a, b) <==> a == b
  {
    if SameDictionary(a, b) {
      forall x ensures x in Elements(a) <==> x in Elements(b) {
        if x in a { PathMembers(b, x.path); }
        if x in b { PathMembers(a, x.path); }
      }
      assert Elements(a) == Elements(b);
      SameBindings(a, b);
    } else if a == b {
      AscendingDistinct(Paths(a));
      forall x | x in a ensures x.path in Paths(a) { PathMembers(a, x.path); }
      forall x, y | x in a && y in a && x.path == y.path ensures x == y { SamePath(a, x, y); }
      assert false;
    }
  }

  /** `_observe_complete_run`. */
  method ObserveCompleteRun(c: Context, runs: Tree, name: string)
    returns (r: Result<(Manifest, seq<Binding>)>)
    requires WellFormed(runs)
    ensures r.Ok? ==>
              && RunValid(c, runs, name, r.value.0)
              && r.value.1 == RunInventory(r.value.0, Subtree(runs, name))
    ensures r.Err? ==> forall m :: !RunValid(c, runs, name, m)
  {
    hide WellFormed, Ascending, SameDictionary, SortBindings, TotalSize, SiblingJournal, Listing, SortedSet,
      Subtree, Paths, CrossChecked;
    if name == "" || !IsDirectory(runs, name) {
      return Err;
    }
    SubtreeWellFormed(runs, name);
    var run := Subtree(runs, name);
    if PublicSubsetName() in Listing(run, "") || !BoundedFile(run, RunManifestName()) {
      return Err;
    }
    var parsed := c.parseManifest(run[RunManifestName()].content);
    if parsed.None? || !ManifestExact(parsed.value) {
      return Err;
    }
    var m := parsed.value;
    var actual := CollectRunArtifacts(c, run);
    if actual.Err? {
      return Err;
    }
    assert Ascending(Paths(m.artifacts)) by { IsSortedSet(Paths(m.artifacts)); }
    SameDictionaryIsEqual(m.artifacts, actual.value);
    if !SameDictionary(m.artifacts, actual.value) {
      assert !Collected(c, run, m.artifacts) by {
        if Collected(c, run, m.artifacts) { CollectedUnique(c, run, m.artifacts, actual.value); }
      }
      return Err;
    }
    if !CrossChecked(c, name, m, run, SiblingJournal(c, runs, run)) {
      return Err;
    }
    var inventory := RunInventory(m, run);
    if |inventory| > MAX_ARTIFACTS || TotalSize(inventory) > MAX_TOTAL_BYTES {
      return Err;
    }
    return Ok((m, inventory));
  }

  /** The inventory of a valid run lists every file of the run, strictly sorted. */
  lemma InventoryIsExact(c: Context, runs: Tree, name: string, m: Manifest)
    requires RunValid(c, runs, name, m)
    ensures var run := Subtree(runs, name);
            && Ascending(Paths(RunInventory(m, run)))
            && Elements(RunInventory(m, run)) ==
                 FileBindings(run) + {Bind(RunManifestName(), run[RunManifestName()])}
            && |RunInventory(m, run)| == |m.artifacts| + 1
  {
    hide Ascending, SortBindings, Sort, SortedSet, FileBindings, RunManifestName, Subtree, CrossChecked, Listing;
    var run := Subtree(runs, name);
    var own := Bind(RunManifestName(), run[RunManifestName()]);
    var all := m.artifacts + [own];
    assert Paths(all) == Paths(m.artifacts) + [own.path];
    AscendingDistinct(Paths(m.artifacts));
    SnocDistinct(Paths(m.artifacts), own.path);
    SortBindingsPaths(all);
    SortDistinct(Paths(all));
    assert Elements(all) == Elements(m.artifacts) + {own};
    DistinctSize(Paths(all));
    AscendingSize(Paths(SortBindings(all)));
    assert |Paths(all)| == |all| && |Paths(SortBindings(all))| == |SortBindings(all)|;
  }

  lemma SnocDistinct<T>(s: seq<T>, x: T)
    requires NoDuplicates(s) && x !in s
    ensures NoDuplicates(s + [x])
  {
  }

  // ---------------------------------------------------------------- the wrapper

  /** `_open_direct_child_directory`. */
  predicate OpensChild(c: Context, tree: Tree, p: string, n: string) {
    c.safe(n) && IsDirectory(tree, Child(p, n))
  }

  predicate OwnerLayout(c: Context, tree: Tree, owner: string) {
    && OpensChild(c, tree, Runs(), owner)
    && Listing(tree, RunDirectory(owner)) == {"private"}
    && OpensChild(c, tree, RunDirectory(owner), "private")
    && Listing(tree, Under(RunDirectory(owner), "private")) == {"scheduler-journal"}
  }

  function Owners(deps: seq<Dependency>): set<string> {
    set d | d in deps :: d.reference.owner
  }

  /** `_validate_runs_layout`. */
  predicate RunsLayout(c: Context, tree: Tree, p: Payload) {
    && IsDirectory(tree, Runs())
    && Listing(tree, Runs()) == {p.sourceRunDirectoryName} + Owners(p.dependencies)
    && forall i :: 0 <= i < |p.dependencies| ==> OwnerLayout(c, tree, p.dependencies[i].reference.owner)
  }

  /** The directories of a journal, as delivered. */
  function JournalDirectories(d: Dependency, below: seq<string>): seq<string> {
    [RunDirectory(d.reference.owner), Under(RunDirectory(d.reference.owner), "private"), d.journalDirectory]
    + UnderAll(d.journalDirectory, below)
  }

  /** The directory inventory of a tree. */
  ghost predicate Inventoried(c: Context, tree: Tree, directories: seq<string>) {
    && DirectoryInventory.Acceptable(c.safe, tree)
    && Ascending(directories) && Elements(directories) == Directories(tree)
  }

  /** The delivered journal is the one the dependency describes. */
  ghost predicate JournalMatches(c: Context, tree: Tree, d: Dependency) {
    && d.journalDirectory != "" && IsDirectory(tree, d.journalDirectory)
    && (exists bs :: Collected(c, Subtree(tree, d.journalDirectory), bs)
                     && PrefixAll(bs, d.journalDirectory) == d.artifacts)
    && (exists ds :: Inventoried(c, Subtree(tree, d.journalDirectory), ds)
                     && JournalDirectories(d, ds) == d.directories)
  }

  function WithDependencies(own: seq<Binding>, deps: seq<Dependency>): seq<Binding> {
    if deps == [] then own
    else WithDependencies(own, deps[..|deps| - 1]) + deps[|deps| - 1].artifacts
  }

  /** `_observe_delivery_inventory` finds exactly the artifacts of the descriptor. */
  ghost predicate InventoryMatches(c: Context, tree: Tree, p: Payload, inventory: seq<Binding>) {
    && RunsLayout(c, tree, p)
    && Inventoried(c, tree, p.directories)
    && (forall i :: 0 <= i < |p.dependencies| ==> JournalMatches(c, tree, p.dependencies[i]))
    && SortBindings(WithDependencies(PrefixAll(inventory, p.primaryRunDirectory), p.dependencies)) == p.artifacts
  }

  /** `_require_source_descriptor_match`. */
  predicate DescribesRun(p: Payload, m: Manifest, inventory: seq<Binding>) {
    && m.runId == p.sourceRunId
    && m.selfSha256 == p.sourceManifestSelfSha256
    && BindingsOf(inventory, RunManifestName()) != []
    && BindingsOf(inventory, RunManifestName())[0].sha256 == p.sourceManifestFileSha256
  }

  /** `_validate_delivery_contents` passes. */
  ghost predicate ContentsValid(c: Context, tree: Tree, p: Payload) {
    && IsDirectory(tree, Runs())
    && exists m :: ContentsMatch(c, tree, p, m)
  }

  ghost predicate ContentsMatch(c: Context, tree: Tree, p: Payload, m: Manifest) {
    && var runs := Subtree(tree, Runs());
    && RunValid(c, runs, p.sourceRunDirectoryName, m)
    && var inventory := RunInventory(m, Subtree(runs, p.sourceRunDirectoryName));
    && DescribesRun(p, m, inventory)
    && InventoryMatches(c, tree, p, inventory)
  }

  /** `verify_complete_forensic_bundle` returns `d`. */
  ghost predicate Accepts(c: Context, tree: Tree, d: Descriptor) {
    && Listing(tree, "") == {DescriptorName(), Runs()}
    && BoundedFile(tree, DescriptorName())
    && c.parseDescriptor(tree[DescriptorName()].content) == Some(d)
    && DescriptorExact(c.rules, d)
    && ContentsValid(c, tree, d.payload)
  }

  method ObserveJournal(c: Context, tree: Tree, d: Dependency) returns (ok: bool)
    requires WellFormed(tree)
    ensures ok <==> JournalMatches(c, tree, d)
  {
    hide WellFormed, Ascending, Collected, Subtree, Inventoried;
    if d.journalDirectory == "" || !IsDirectory(tree, d.journalDirectory) {
      return false;
    }
    var journal := Subtree(tree, d.journalDirectory);
    SubtreeWellFormed(tree, d.journalDirectory);
    var bs := CollectRunArtifacts(c, journal);
    if bs.Err? {
      return false;
    }
    if PrefixAll(bs.value, d.journalDirectory) != d.artifacts {
      forall x | Collected(c, journal, x) ensures x == bs.value { CollectedUnique(c, journal, x, bs.value); }
      return false;
    }
    var ds := ObserveDirectories(c, journal);
    if ds.Err? {
      return false;
    }
    if JournalDirectories(d, ds.value) != d.directories {
      forall x | Inventoried(c, journal, x) ensures x == ds.value { InventoriedUnique(c, journal, x, ds.value); }
      return false;
    }
    return true;
  }

  lemma InventoriedUnique(c: Context, tree: Tree, a: seq<string>, b: seq<string>)
    requires Inventoried(c, tree, a) && Inventoried(c, tree, b)
    ensures a == b
  {
    AscendingUnique(a, b);
  }

  method ObserveDirectories(c: Context, tree: Tree) returns (r: Result<seq<string>>)
    requires WellFormed(tree)
    ensures r.Ok? ==> Inventoried(c, tree, r.value)
    ensures r.Err? ==> forall ds :: !Inventoried(c, tree, ds)
  {
    r := DirectoryInventory.ObserveDirectoryInventory(c.safe, tree);
  }

  /** `_observe_delivery_inventory`, compared with the descriptor. */
  method ObserveDeliveryInventory(c: Context, tree: Tree, p: Payload, inventory: seq<Binding>)
    returns (ok: bool)
    requires WellFormed(tree)
    ensures ok <==> InventoryMatches(c, tree, p, inventory)
  {
    hide WellFormed, Ascending, Collected, Subtree, Inventoried, RunsLayout, JournalMatches, SortBindings;
    if !RunsLayout(c, tree, p) {
      return false;
    }
    var ds := ObserveDirectories(c, tree);
    if ds.Err? {
      return false;
    }
    if ds.value != p.directories {
      if Inventoried(c, tree, p.directories) { InventoriedUnique(c, tree, ds.value, p.directories); }
      return false;
    }
    var observed := PrefixAll(inventory, p.primaryRunDirectory);
    var i := 0;
    while i < |p.dependencies|
      invariant i <= |p.dependencies|
      invariant forall j :: 0 <= j < i ==> JournalMatches(c, tree, p.dependencies[j])
      invariant observed == WithDependencies(PrefixAll(inventory, p.primaryRunDirectory), p.dependencies[..i])
    {
      var matches := ObserveJournal(c, tree, p.dependencies[i]);
      if !matches {
        return false;
      }
      observed := observed + p.dependencies[i].artifacts;
      assert p.dependencies[..i + 1][..i] == p.dependencies[..i];
      i := i + 1;
    }
    assert p.dependencies[..i] == p.dependencies;
    return SortBindings(observed) == p.artifacts;
  }

  /** `_validate_delivery_contents`. */
  method ValidateDeliveryContents(c: Context, tree: Tree, p: Payload) returns (ok: bool)
    requires WellFormed(tree)
    ensures ok <==> ContentsValid(c, tree, p)
  {
    hide WellFormed, Subtree, RunValid, InventoryMatches, DescribesRun, RunInventory;
    if !IsDirectory(tree, Runs()) {
      return false;
    }
    SubtreeWellFormed(tree, Runs());
    var runs := Subtree(tree, Runs());
    var run := ObserveCompleteRun(c, runs, p.sourceRunDirectoryName);
    if run.Err? {
      return false;
    }
    var (m, inventory) := run.value;
    forall x | RunValid(c, runs, p.sourceRunDirectoryName, x) ensures x == m {
      OneManifest(c, runs, p.sourceRunDirectoryName, x, m);
    }
    if !DescribesRun(p, m, inventory) {
      return false;
    }
    var matches := ObserveDeliveryInventory(c, tree, p, inventory);
    if !matches {
      return false;
    }
    assert ContentsMatch(c, tree, p, m);
    return true;
  }

  lemma OneManifest(c: Context, runs: Tree, name: string, a: Manifest, b: Manifest)
    requires RunValid(c, runs, name, a) && RunValid(c, runs, name, b)
    ensures a == b
  {
    hide Subtree, Collected, ManifestExact, Listing, RunInventory, CrossChecked;
  }

  /** `verify_complete_forensic_bundle` on a wrapper that does not change. */
  method VerifyCompleteForensicBundle(c: Context, tree: Tree) returns (r: Result<Descriptor>)
    requires WellFormed(tree)
    ensures r.Ok? ==> Accepts(c, tree, r.value)
    ensures r.Err? ==> forall d :: !Accepts(c, tree, d)
  {
    hide WellFormed, DescriptorExact, ContentsValid, Listing;
    if Listing(tree, "") != {DescriptorName(), Runs()} || !BoundedFile(tree, DescriptorName()) {
      return Err;
    }
    var parsed := c.parseDescriptor(tree[DescriptorName()].content);
    if parsed.None? || !DescriptorExact(c.rules, parsed.value) {
      return Err;
    }
    var ok := ValidateDeliveryContents(c, tree, parsed.value.payload);
    return if ok then Ok(parsed.value) else Err;
  }

  // ---------------------------------------------------------------- what an accepted wrapper holds

  /** The tree holds an unshared file with the bound bytes at the bound path. */
  ghost predicate Holds(tree: Tree, b: Binding) {
    b.path in tree && tree[b.path].File? && tree[b.path].links == 1 && Bind(b.path, tree[b.path]) == b
  }

  /** A file that collection passes over inside a journal. */
  predicate PassedOver(p: Payload, k: string) {
    exists i :: 0 <= i < |p.dependencies| && k == Under(p.dependencies[i].journalDirectory, RunManifestName())
  }

  lemma {:induction false} WithDependenciesMembers(own: seq<Binding>, deps: seq<Dependency>, b: Binding)
    ensures b in WithDependencies(own, deps) <==>
              b in own || exists i :: 0 <= i < |deps| && b in deps[i].artifacts
    decreases |deps|
  {
    if deps != [] {
      var n := |deps| - 1;
      WithDependenciesMembers(own, deps[..n], b);
      if i :| 0 <= i < |deps| && b in deps[i].artifacts { assert i < n ==> deps[..n][i] == deps[i]; }
    }
  }

  lemma ArtifactMembers(c: Context, tree: Tree, p: Payload, inventory: seq<Binding>, b: Binding)
    requires InventoryMatches(c, tree, p, inventory)
    ensures b in p.artifacts <==>
              || b in PrefixAll(inventory, p.primaryRunDirectory)
              || exists i :: 0 <= i < |p.dependencies| && b in p.dependencies[i].artifacts
  {
    hide RunsLayout, Inventoried, JournalMatches;
    var all := WithDependencies(PrefixAll(inventory, p.primaryRunDirectory), p.dependencies);
    SortBindingsPaths(all);
    assert b in SortBindings(all) <==> b in Elements(SortBindings(all));
    assert b in all <==> b in Elements(all);
    WithDependenciesMembers(PrefixAll(inventory, p.primaryRunDirectory), p.dependencies, b);
  }

  /** A binding of the subtree is the prefixed binding of the tree. */
  lemma PrefixedBinding(tree: Tree, p: string, r: string)
    requires r != "" && r in Subtree(tree, p) && Subtree(tree, p)[r].File?
    ensures Under(p, r) in tree && tree[Under(p, r)] == Subtree(tree, p)[r]
    ensures Prefixed(Bind(r, Subtree(tree, p)[r]), p) == Bind(Under(p, r), tree[Under(p, r)])
  {
    SubtreeAt(tree, p, r);
  }

  lemma PrefixedHolds(tree: Tree, p: string, sub: Tree, b: Binding)
    requires sub == Subtree(tree, p) && b.path != "" && Holds(sub, b)
    ensures Holds(tree, Prefixed(b, p))
  {
    PrefixedBinding(tree, p, b.path);
  }

  lemma CollectedHolds(c: Context, tree: Tree, bs: seq<Binding>, b: Binding)
    requires Collected(c, tree, bs) && b in bs && "" in tree && tree[""] == Directory
    ensures Holds(tree, b) && b.path != ""
  {
    assert b in Elements(bs);
    var k :| k in tree && Collects(tree, k) && b == Bind(k, tree[k]);
    assert EntryAllowed(c, tree, k);
  }

  lemma InventoryHolds(c: Context, runs: Tree, name: string, m: Manifest, b: Binding)
    requires WellFormed(runs) && RunValid(c, runs, name, m) && b in RunInventory(m, Subtree(runs, name))
    ensures Holds(Subtree(runs, name), b) && b.path != ""
  {
    hide Subtree, RunInventory, Collected, WellFormed;
    var run := Subtree(runs, name);
    SubtreeWellFormed(runs, name);
    RootIsDirectory(run);
    InventoryIsExact(c, runs, name, m);
    assert b in Elements(RunInventory(m, run));
    if b in FileBindings(run) {
      CollectedElements(c, run, m.artifacts, b);
      CollectedHolds(c, run, m.artifacts, b);
    }
  }

  lemma CollectedElements(c: Context, tree: Tree, bs: seq<Binding>, b: Binding)
    requires Collected(c, tree, bs)
    ensures b in bs <==> b in FileBindings(tree)
  {
    assert b in bs <==> b in Elements(bs);
  }

  lemma PrefixAllMembers(bs: seq<Binding>, prefix: string, b: Binding) returns (a: Binding)
    requires b in PrefixAll(bs, prefix)
    ensures a in bs && b == Prefixed(a, prefix)
  {
    var i :| 0 <= i < |bs| && PrefixAll(bs, prefix)[i] == b;
    a := bs[i];
  }

  /** The places the descriptor's validators fix. */
  ghost predicate Placed(p: Payload) {
    && p.primaryRunDirectory == RunDirectory(p.sourceRunDirectoryName)
    && p.sourceRunDirectoryName != ""
    && forall i :: 0 <= i < |p.dependencies| ==>
         p.dependencies[i].journalDirectory == JournalDirectory(p.dependencies[i].reference.owner)
  }

  lemma ExactIsPlaced(c: Context, d: Descriptor)
    requires DescriptorExact(c.rules, d)
    ensures Placed(d.payload) && |d.payload.dependencies| <= 1
  {
    hide TotalSize, CountClass, BindingsOf, InDependency, SortedSet, StartsWith, JournalDirectory, RunDirectory,
      DependencyBound, Under, Paths;
  }

  /** Every bound file is there with its bytes. */
  lemma ArtifactsHeld(c: Context, tree: Tree, p: Payload, m: Manifest, b: Binding)
    requires WellFormed(tree) && IsDirectory(tree, Runs()) && ContentsMatch(c, tree, p, m) && Placed(p)
    requires b in p.artifacts
    ensures Holds(tree, b)
  {
    hide Subtree, RunInventory, Collected, WellFormed, Inventoried, RunsLayout, DescribesRun, Holds, RunValid,
      SortBindings, JournalDirectory;
    var runs := Subtree(tree, Runs());
    var run := Subtree(runs, p.sourceRunDirectoryName);
    var inventory := RunInventory(m, run) by { ManifestIsFile(c, runs, p.sourceRunDirectoryName, m); }
    SubtreeWellFormed(tree, Runs());
    ArtifactMembers(c, tree, p, inventory, b);
    if b in PrefixAll(inventory, p.primaryRunDirectory) {
      var a := PrefixAllMembers(inventory, p.primaryRunDirectory, b);
      InventoryHolds(c, runs, p.sourceRunDirectoryName, m, a);
      SubtreeTwice(tree, Runs(), p.sourceRunDirectoryName);
      PrefixedHolds(tree, p.primaryRunDirectory, run, a);
    } else {
      var i :| 0 <= i < |p.dependencies| && b in p.dependencies[i].artifacts;
      var d := p.dependencies[i];
      assert JournalMatches(c, tree, d);
      var journal := Subtree(tree, d.journalDirectory);
      var bs :| Collected(c, journal, bs) && PrefixAll(bs, d.journalDirectory) == d.artifacts;
      var a := PrefixAllMembers(bs, d.journalDirectory, b);
      SubtreeWellFormed(tree, d.journalDirectory);
      RootIsDirectory(journal);
      CollectedHolds(c, journal, bs, a);
      PrefixedHolds(tree, d.journalDirectory, journal, a);
    }
  }

  lemma ManifestIsFile(c: Context, runs: Tree, name: string, m: Manifest)
    requires RunValid(c, runs, name, m)
    ensures BoundedFile(Subtree(runs, name), RunManifestName()) && IsDirectory(runs, name) && name != ""
  {
    hide CrossChecked, Collected, ManifestExact, Listing, Subtree, RunInventory;
  }

  /** Every file below the primary run is bound. */
  lemma RunFileBound(c: Context, tree: Tree, p: Payload, m: Manifest, k: string)
    requires WellFormed(tree) && ContentsMatch(c, tree, p, m) && Placed(p)
    requires k in tree && tree[k].File? && IsBelow(p.primaryRunDirectory, k) && k != p.primaryRunDirectory
    ensures Bind(k, tree[k]) in p.artifacts
  {
    hide Subtree, RunInventory, Collected, WellFormed, Inventoried, RunsLayout, DescribesRun, RunValid,
      SortBindings, JournalMatches, IsBelow;
    var runs := Subtree(tree, Runs());
    var name := p.sourceRunDirectoryName;
    var run := Subtree(runs, name);
    ManifestIsFile(c, runs, name, m);
    var inventory := RunInventory(m, run);
    SubtreeTwice(tree, Runs(), name);
    var r := Relative(p.primaryRunDirectory, k);
    RelativeBelow(p.primaryRunDirectory, k);
    SubtreeAt(tree, p.primaryRunDirectory, r);
    PrefixedBinding(tree, p.primaryRunDirectory, r);
    var b := Bind(r, run[r]);
    InventoryIsExact(c, runs, name, m);
    assert b in Elements(inventory) by {
      if r != RunManifestName() { assert Collects(run, r); assert b in FileBindings(run); }
    }
    PrefixedMember(inventory, p.primaryRunDirectory, b);
    ArtifactMembers(c, tree, p, inventory, Bind(k, tree[k]));
  }

  /** Every file below a journal is bound or passed over. */
  lemma JournalFileBound(c: Context, tree: Tree, p: Payload, inventory: seq<Binding>, i: nat, k: string)
    requires WellFormed(tree) && InventoryMatches(c, tree, p, inventory)
    requires i < |p.dependencies|
    requires k in tree && tree[k].File?
    requires IsBelow(p.dependencies[i].journalDirectory, k) && k != p.dependencies[i].journalDirectory
    ensures Bind(k, tree[k]) in p.artifacts || PassedOver(p, k)
  {
    hide Subtree, Collected, WellFormed, Inventoried, RunsLayout, SortBindings, IsBelow;
    var d := p.dependencies[i];
    assert JournalMatches(c, tree, d);
    var journal := Subtree(tree, d.journalDirectory);
    var bs :| Collected(c, journal, bs) && PrefixAll(bs, d.journalDirectory) == d.artifacts;
    var r := Relative(d.journalDirectory, k);
    RelativeBelow(d.journalDirectory, k);
    SubtreeAt(tree, d.journalDirectory, r);
    PrefixedBinding(tree, d.journalDirectory, r);
    if r != RunManifestName() {
      var b := Bind(r, journal[r]);
      assert Collects(journal, r);
      assert b in FileBindings(journal);
      CollectedElements(c, journal, bs, b);
      PrefixedMember(bs, d.journalDirectory, b);
      ArtifactMembers(c, tree, p, inventory, Bind(k, tree[k]));
    }
  }

  lemma StepInto(tree: Tree, p: string, k: string, only: string) returns (c: string)
    requires WellFormed(tree) && p != "" && p in tree && k in tree && k != p && IsBelow(p, k)
    requires Listing(tree, p) == {only}
    ensures c == Under(p, only) && c in tree && IsBelow(c, k)
  {
    hide WellFormed, IsBelow, IsChild, Listing;
    c := FirstStep(tree, p, k);
    NameChild(p, c);
  }

  /** A file below an owner's run directory is below its journal. */
  lemma OwnerFile(c: Context, tree: Tree, owner: string, k: string)
    requires WellFormed(tree) && OwnerLayout(c, tree, owner) && IsDirectory(tree, JournalDirectory(owner))
    requires k in tree && tree[k].File? && IsBelow(RunDirectory(owner), k)
    ensures IsBelow(JournalDirectory(owner), k) && k != JournalDirectory(owner)
  {
    hide WellFormed, IsBelow, Listing, Under, RunDirectory, JournalDirectory, Runs;
    OwnerChildren(owner);
    OwnerDirectories(c, tree, owner);
    var a := StepInto(tree, RunDirectory(owner), k, "private");
    var b := StepInto(tree, a, k, "scheduler-journal");
  }

  lemma OwnerChildren(owner: string)
    ensures Child(Runs(), owner) == RunDirectory(owner) != ""
    ensures Child(RunDirectory(owner), "private") == Under(RunDirectory(owner), "private") != ""
    ensures Under(Under(RunDirectory(owner), "private"), "scheduler-journal") == JournalDirectory(owner) != ""
  {
  }

  lemma OwnerDirectories(c: Context, tree: Tree, owner: string)
    requires OwnerLayout(c, tree, owner)
    ensures IsDirectory(tree, RunDirectory(owner)) && IsDirectory(tree, Under(RunDirectory(owner), "private"))
  {
    hide Under, Listing;
    OwnerChildren(owner);
  }

  /** Every file below the runs directory is bound, or passed over in a journal. */
  lemma RunsFileBound(c: Context, tree: Tree, p: Payload, m: Manifest, k: string)
    requires WellFormed(tree) && IsDirectory(tree, Runs()) && ContentsMatch(c, tree, p, m) && Placed(p)
    requires k in tree && tree[k].File? && IsBelow(Runs(), k)
    ensures Bind(k, tree[k]) in p.artifacts || PassedOver(p, k)
  {
    hide WellFormed, IsBelow, Listing, RunValid, OwnerLayout, Inventoried, SortBindings, DescribesRun,
      PassedOver, Subtree, RunInventory, IsChild, JournalDirectory;
    var runs := Subtree(tree, Runs());
    ManifestIsFile(c, runs, p.sourceRunDirectoryName, m);
    SubtreeAt(tree, Runs(), p.sourceRunDirectoryName);
    var top := FirstStep(tree, Runs(), k);
    NameChild(Runs(), top);
    var n := NameIn(Runs(), top);
    assert top == RunDirectory(n);
    if n == p.sourceRunDirectoryName {
      RunFileBound(c, tree, p, m, k);
    } else {
      assert n in Owners(p.dependencies);
      var i :| 0 <= i < |p.dependencies| && p.dependencies[i].reference.owner == n;
      assert JournalMatches(c, tree, p.dependencies[i]);
      OwnerFile(c, tree, n, k);
      JournalFileBound(c, tree, p, RunInventory(m, Subtree(runs, p.sourceRunDirectoryName)), i, k);
    }
  }

  // ---------------------------------------------------------------- custody keeps journals clean

  /** No control name is the run manifest's. */
  lemma ControlNames(n: string)
    requires n in ControlFiles() + ControlDirectories() || n == TerminalAuthorityName()
    ensures n != RunManifestName()
  {
    hide ControlFiles, ControlDirectories;
    assert |RunManifestName()| == 26 && |TerminalAuthorityName()| == 30;
    if n in ControlFiles() { ControlFileLength(n); } else if n in ControlDirectories() { ControlDirectoryLength(n); }
  }

  lemma ControlFileLength(n: string)
    requires n in ControlFiles()
    ensures |n| != 26
  {
    assert n == ".scheduler.lock" || n == "manifest.json" || n == "analysis-input-inventory.json";
  }

  lemma ControlDirectoryLength(n: string)
    requires n in ControlDirectories()
    ensures |n| <= 17
  {
    assert |"activations"| == 11 && |"events"| == 6 && |"pass-plans"| == 10 && |"pass-results"| == 12;
    assert |"task-outputs"| == 12 && |"task-results"| == 12 && |"provider-attempts"| == 17;
  }

  lemma LayoutHasNoManifest(journal: Tree)
    requires ControlLayout(journal)
    ensures RunManifestName() !in journal
  {
    hide RunManifestName, ControlFiles, ControlDirectories, TerminalAuthorityName, Listing, IsDirectory;
    if RunManifestName() in journal {
      ManifestTopName();
      ListingMember(journal, "", RunManifestName());
      ControlNames(RunManifestName());
    }
  }

  lemma ManifestTopName()
    ensures IsName(RunManifestName()) && Child("", RunManifestName()) == RunManifestName()
  {
  }

  /** Each dependency's reference is a bound file of the primary run. */
  ghost predicate Referenced(p: Payload) {
    forall i :: 0 <= i < |p.dependencies| ==>
      && p.dependencies[i].referencePath == Under(p.primaryRunDirectory, ReferencePath())
      && p.dependencies[i].referencePath in Paths(p.artifacts)
  }

  lemma ExactIsReferenced(c: Context, d: Descriptor)
    requires DescriptorExact(c.rules, d)
    ensures Referenced(d.payload)
  {
    hide TotalSize, CountClass, BindingsOf, InDependency, SortedSet, StartsWith, JournalDirectory, RunDirectory,
      Under, Paths, ReferencePath, DependencyExact;
    forall i | 0 <= i < |d.payload.dependencies| ensures d.payload.dependencies[i].referencePath in Paths(d.payload.artifacts) {
      assert DependencyBound(d.payload, d.payload.dependencies[i]);
      NoBinding(d.payload.artifacts, d.payload.dependencies[i].referencePath);
    }
  }

  /** The primary run keeps scheduler state. */
  predicate KeepsState(tree: Tree, p: Payload) {
    Under(p.primaryRunDirectory, SchedulerStateName()) in tree
  }

  /** The run directory above a journal is listed. */
  lemma OwnerListed(tree: Tree, owner: string)
    requires WellFormed(tree) && IsDirectory(tree, Runs()) && IsName(owner)
    requires Under(Runs(), Under(owner, JournalPath())) in tree
    ensures owner in Listing(tree, Runs())
  {
    hide WellFormed, IsChild, Listing, JournalPath, Runs, IsBelow;
    var k := Under(Runs(), Under(owner, JournalPath()));
    PathBelow(owner);
    var top := FirstStep(tree, Runs(), k);
    NameChild(Runs(), top);
    var n := NameIn(Runs(), top);
    RelativeBelow(top, k);
    TopIs(owner, n, Relative(top, k));
  }

  lemma PathBelow(owner: string)
    ensures IsBelow(Runs(), Under(Runs(), Under(owner, JournalPath()))) && Runs() != ""
    ensures Under(Runs(), Under(owner, JournalPath())) != Runs()
  {
  }

  lemma TopIs(owner: string, n: string, r: string)
    requires IsName(owner) && IsName(n)
    requires Below(Child(Runs(), n), r) == Under(Runs(), Under(owner, JournalPath()))
    ensures n == owner
  {
    hide JournalPath;
    assert Child(Runs(), n) == Under(Runs(), n) by { RunsNotEmpty(); }
    assert Under(owner, JournalPath())[|owner|] == '/';
    if r == "" {
      UnderInjective(Runs(), n, Under(owner, JournalPath()));
    } else {
      assert Below(Under(Runs(), n), r) == Under(Runs(), n + "/" + r);
      UnderInjective(Runs(), n + "/" + r, owner + "/" + JournalPath());
      NamesSeparate(n, owner, r, JournalPath());
    }
  }

  lemma RunsNotEmpty()
    ensures Runs() != ""
  {
  }

  lemma JournalFromRuns(owner: string)
    ensures Under(Runs(), Under(owner, JournalPath())) == JournalDirectory(owner)
    ensures Under(owner, JournalPath()) != ""
  {
  }

  /** What custody says of a run that keeps scheduler state and a reference. */
  lemma CustodyOf(c: Context, runs: Tree, name: string, m: Manifest) returns (owner: string)
    requires RunValid(c, runs, name, m)
    requires SchedulerStateName() in Subtree(runs, name) && ReferencePath() in Subtree(runs, name)
    ensures IsName(owner) && owner != name && IsDirectory(runs, Under(owner, JournalPath()))
    ensures ControlLayout(Subtree(runs, Under(owner, JournalPath())))
  {
    hide Subtree, ControlLayout, Collected, ManifestExact, Listing, RunInventory, SchedulerStateName, ReferencePath,
      JournalPath, RunManifestName, PublicSubsetName, TotalSize;
    var run := Subtree(runs, name);
    owner := c.parseReference(run[ReferencePath()].content).value.owner;
  }

  lemma StateInRun(tree: Tree, p: Payload)
    requires KeepsState(tree, p) && Placed(p)
    ensures SchedulerStateName() in Subtree(Subtree(tree, Runs()), p.sourceRunDirectoryName)
  {
    hide Subtree;
    SubtreeTwice(tree, Runs(), p.sourceRunDirectoryName);
    SubtreeAt(tree, p.primaryRunDirectory, SchedulerStateName());
  }

  lemma ReferenceInRun(c: Context, tree: Tree, p: Payload, m: Manifest, i: nat)
    requires WellFormed(tree) && IsDirectory(tree, Runs()) && ContentsMatch(c, tree, p, m) && Placed(p) && Referenced(p)
    requires i < |p.dependencies|
    ensures ReferencePath() in Subtree(Subtree(tree, Runs()), p.sourceRunDirectoryName)
  {
    hide Subtree, WellFormed, ContentsMatch, Paths, Runs, JournalDirectory;
    var k := p.dependencies[i].referencePath;
    PathMembers(p.artifacts, k);
    var b :| b in p.artifacts && b.path == k;
    ArtifactsHeld(c, tree, p, m, b);
    SubtreeTwice(tree, Runs(), p.sourceRunDirectoryName);
    SubtreeAt(tree, p.primaryRunDirectory, ReferencePath());
    ReferenceNotEmpty();
  }

  lemma ReferenceNotEmpty()
    ensures ReferencePath() != ""
  {
  }

  /** With scheduler state in the run, no retained journal has a file that collection passes over. */
  lemma CustodyClearsJournal(c: Context, tree: Tree, p: Payload, m: Manifest, k: string)
    requires WellFormed(tree) && IsDirectory(tree, Runs()) && ContentsMatch(c, tree, p, m) && Placed(p) && Referenced(p)
    requires |p.dependencies| <= 1 && KeepsState(tree, p) && PassedOver(p, k)
    ensures k !in tree
  {
    hide WellFormed, RunValid, Subtree, ControlLayout, Listing, Inventoried, SortBindings, JournalMatches, OwnerLayout,
      DescribesRun, RunInventory, JournalPath, RunManifestName, SchedulerStateName, ReferencePath, Runs, RunDirectory,
      JournalDirectory, Under, KeepsState;
    var runs := Subtree(tree, Runs());
    var name := p.sourceRunDirectoryName;
    var i :| 0 <= i < |p.dependencies| && k == Under(p.dependencies[i].journalDirectory, RunManifestName());
    StateInRun(tree, p);
    ReferenceInRun(c, tree, p, m, i);
    var owner := CustodyOf(c, runs, name, m);
    JournalFromRuns(owner);
    SubtreeAt(tree, Runs(), Under(owner, JournalPath()));
    OwnerListed(tree, owner);
    assert owner in Owners(p.dependencies);
    assert p.dependencies[i].reference.owner == owner;
    SubtreeTwice(tree, Runs(), Under(owner, JournalPath()));
    LayoutHasNoManifest(Subtree(runs, Under(owner, JournalPath())));
    SubtreeAt(tree, JournalDirectory(owner), RunManifestName());
    ManifestTopName();
  }

  /** The wrapper is what its descriptor says: no incomplete-export marker, exactly the listed
      directories, every bound file unshared and with its bound bytes, and no file that is neither
      the descriptor nor bound. Only when the run keeps no scheduler state may the top of a retained
      journal hold a file of the run manifest's name besides. */
  ghost predicate Exact(tree: Tree, p: Payload) {
    && MarkerName() !in tree
    && Directories(tree) == Elements(p.directories)
    && (forall b :: b in p.artifacts ==> Holds(tree, b))
    && forall k :: k in tree && tree[k].File? ==>
         k == DescriptorName() || Bind(k, tree[k]) in p.artifacts || (PassedOver(p, k) && !KeepsState(tree, p))
  }

  /** The contents of an accepted wrapper, with the manifest that verification read. */
  lemma AcceptedContents(c: Context, tree: Tree, d: Descriptor) returns (m: Manifest)
    requires Accepts(c, tree, d)
    ensures IsDirectory(tree, Runs()) && ContentsMatch(c, tree, d.payload, m) && Placed(d.payload)
    ensures Referenced(d.payload) && Inventoried(c, tree, d.payload.directories)
    ensures DescriptorName() in Files(tree) && MarkerName() !in tree && |d.payload.dependencies| <= 1
  {
    hide DescriptorName, Runs, MarkerName, Inventoried, ContentsMatch, DescriptorExact, Listing, Placed, Referenced;
    m :| ContentsMatch(c, tree, d.payload, m);
    ContentsInventoried(c, tree, d.payload, m);
    ExactIsPlaced(c, d);
    ExactIsReferenced(c, d);
    MarkerNotListed(tree);
  }

  lemma ContentsInventoried(c: Context, tree: Tree, p: Payload, m: Manifest)
    requires ContentsMatch(c, tree, p, m)
    ensures Inventoried(c, tree, p.directories)
  {
    hide Subtree, RunsLayout, Inventoried, RunValid, DescribesRun, JournalMatches, SortBindings, RunInventory;
  }

  lemma MarkerNotListed(tree: Tree)
    requires Listing(tree, "") == {DescriptorName(), Runs()}
    ensures MarkerName() !in tree
  {
    ListingMember(tree, "", MarkerName());
    assert MarkerName()[0] != DescriptorName()[0] && MarkerName()[0] != Runs()[0];
  }

  lemma TopFile(c: Context, tree: Tree, d: Descriptor, k: string)
    requires WellFormed(tree) && Accepts(c, tree, d)
    requires k in tree && tree[k].File? && k != DescriptorName()
    ensures IsBelow(Runs(), k)
  {
    hide WellFormed, IsBelow, Listing, DescriptorExact, IsChild, ContentsValid, Runs, DescriptorName;
    RootIsDirectory(tree);
    var top := FirstStep(tree, "", k);
    NameChild("", top);
    assert top == NameIn("", top);
  }

  /** Whatever verification accepts is exact. */
  lemma AcceptedIsExact(c: Context, tree: Tree, d: Descriptor)
    requires WellFormed(tree) && Accepts(c, tree, d)
    ensures Exact(tree, d.payload)
  {
    hide WellFormed, Accepts, Holds, PassedOver, ContentsMatch, Placed, IsBelow, DescriptorName, MarkerName, Referenced,
      KeepsState;
    var p := d.payload;
    var m := AcceptedContents(c, tree, d);
    forall b | b in p.artifacts ensures Holds(tree, b) { ArtifactsHeld(c, tree, p, m, b); }
    forall k | k in tree && tree[k].File? && k != DescriptorName()
      ensures Bind(k, tree[k]) in p.artifacts || (PassedOver(p, k) && !KeepsState(tree, p))
    {
      TopFile(c, tree, d, k);
      RunsFileBound(c, tree, p, m, k);
      if PassedOver(p, k) && KeepsState(tree, p) { CustodyClearsJournal(c, tree, p, m, k); }
    }
  }

  lemma HeldIsFile(tree: Tree, b: Binding)
    requires Holds(tree, b)
    ensures b.path in Files(tree)
  {
  }

  /** The run manifest keeps an owner's directory from being the primary run's. */
  lemma OwnerDiffers(c: Context, tree: Tree, p: Payload, m: Manifest, i: nat)
    requires WellFormed(tree) && IsDirectory(tree, Runs()) && ContentsMatch(c, tree, p, m) && Placed(p)
    requires i < |p.dependencies|
    ensures p.dependencies[i].reference.owner != p.sourceRunDirectoryName
    ensures IsName(p.dependencies[i].reference.owner) && IsName(p.sourceRunDirectoryName)
  {
    hide WellFormed, Listing, RunValid, Inventoried, SortBindings, DescribesRun, Subtree, RunInventory,
      JournalMatches, JournalDirectory, Runs;
    var name, owner := p.sourceRunDirectoryName, p.dependencies[i].reference.owner;
    assert p.dependencies[i] in p.dependencies && owner in Owners(p.dependencies);
    ListingMember(tree, Runs(), name);
    ListingMember(tree, Runs(), owner);
    assert OwnerLayout(c, tree, owner);
    ManifestIsFile(c, Subtree(tree, Runs()), name, m);
    SubtreeTwice(tree, Runs(), name);
    SubtreeAt(tree, RunDirectory(name), RunManifestName());
    ManifestListed(tree, name);
  }

  lemma ManifestListed(tree: Tree, name: string)
    requires Below(RunDirectory(name), RunManifestName()) in tree
    ensures RunManifestName() in Listing(tree, RunDirectory(name)) && RunManifestName() != "private"
  {
    ListingMember(tree, RunDirectory(name), RunManifestName());
    assert RunManifestName()[0] != "private"[0];
  }

  /** What is passed over is never bound. */
  lemma PassedOverUnbound(c: Context, tree: Tree, p: Payload, m: Manifest, k: string)
    requires WellFormed(tree) && IsDirectory(tree, Runs()) && ContentsMatch(c, tree, p, m) && Placed(p)
    requires |p.dependencies| <= 1 && PassedOver(p, k)
    ensures k !in Paths(p.artifacts)
  {
    hide WellFormed, Listing, RunValid, Inventoried, SortBindings, DescribesRun, Subtree, RunInventory,
      JournalDirectory, Runs, RunsLayout, Collected, RunManifestName, RunDirectory, JournalPath, Under;
    var i :| 0 <= i < |p.dependencies| && k == Under(p.dependencies[i].journalDirectory, RunManifestName());
    var d := p.dependencies[i];
    assert JournalMatches(c, tree, d);
    var bs :| Collected(c, Subtree(tree, d.journalDirectory), bs) && PrefixAll(bs, d.journalDirectory) == d.artifacts;
    OwnerDiffers(c, tree, p, m, i);
    ManifestIsFile(c, Subtree(tree, Runs()), p.sourceRunDirectoryName, m);
    var inventory := RunInventory(m, Subtree(Subtree(tree, Runs()), p.sourceRunDirectoryName));
    if k in Paths(p.artifacts) {
      PathMembers(p.artifacts, k);
      var b :| b in p.artifacts && b.path == k;
      ArtifactMembers(c, tree, p, inventory, b);
      if b in PrefixAll(inventory, p.primaryRunDirectory) {
        var a := PrefixAllMembers(inventory, p.primaryRunDirectory, b);
        BelowJournal(d.reference.owner, RunManifestName());
        RunsSeparate(p.sourceRunDirectoryName, d.reference.owner, a.path, JournalPath() + "/" + RunManifestName());
      } else {
        var a := PrefixAllMembers(bs, d.journalDirectory, b);
        UnderInjective(d.journalDirectory, a.path, RunManifestName());
        CollectedElements(c, Subtree(tree, d.journalDirectory), bs, a);
      }
    }
  }

  lemma PassedOverIsDeep(p: Payload, k: string)
    requires PassedOver(p, k)
    ensures k != DescriptorName()
  {
    var i :| 0 <= i < |p.dependencies| && k == Under(p.dependencies[i].journalDirectory, RunManifestName());
    assert k[|p.dependencies[i].journalDirectory|] == '/';
    assert '/' !in DescriptorName();
  }

  /** An accepted wrapper holds nothing but the descriptor and the bound files exactly when no file
      with the run manifest's name lies at the top of a retained journal. */
  lemma NothingElseIff(c: Context, tree: Tree, d: Descriptor)
    requires WellFormed(tree) && Accepts(c, tree, d)
    ensures Files(tree) == {DescriptorName()} + Elements(Paths(d.payload.artifacts)) <==>
              forall k :: PassedOver(d.payload, k) ==> k !in Files(tree)
  {
    hide WellFormed, Accepts, Holds, PassedOver, ContentsMatch, Placed, DescriptorName, MarkerName, Inventoried;
    var p := d.payload;
    AcceptedIsExact(c, tree, d);
    var m := AcceptedContents(c, tree, d);
    forall k | k in Paths(p.artifacts) ensures k in Files(tree) {
      PathMembers(p.artifacts, k);
      var b :| b in p.artifacts && b.path == k;
      HeldIsFile(tree, b);
    }
    forall k | k in Files(tree) && Bind(k, tree[k]) in p.artifacts ensures k in Paths(p.artifacts) {
      PathMembers(p.artifacts, k);
    }
    forall k | PassedOver(p, k) ensures k != DescriptorName() && k !in Paths(p.artifacts) {
      PassedOverIsDeep(p, k);
      PassedOverUnbound(c, tree, p, m, k);
    }
  }

  /** With scheduler state in the run, or without a retained journal, an accepted wrapper holds nothing but
      the descriptor and the bound files. */
  lemma AcceptedIsComplete(c: Context, tree: Tree, d: Descriptor)
    requires WellFormed(tree) && Accepts(c, tree, d)
    requires KeepsState(tree, d.payload) || d.payload.dependencies == []
    ensures Files(tree) == {DescriptorName()} + Elements(Paths(d.payload.artifacts))
  {
    hide WellFormed, Accepts, ContentsMatch, Placed, DescriptorName, MarkerName, Inventoried, Referenced, KeepsState;
    var m := AcceptedContents(c, tree, d);
    forall k | PassedOver(d.payload, k) ensures k !in Files(tree) {
      CustodyClearsJournal(c, tree, d.payload, m, k);
    }
    NothingElseIff(c, tree, d);
  }

  lemma AcceptedRun(c: Context, tree: Tree, d: Descriptor, m: Manifest)
    requires WellFormed(tree) && Accepts(c, tree, d) && ContentsMatch(c, tree, d.payload, m)
    ensures var run := Subtree(tree, d.payload.primaryRunDirectory);
            && run == Subtree(Subtree(tree, Runs()), d.payload.sourceRunDirectoryName)
            && BoundedFile(run, RunManifestName())
            && c.parseManifest(run[RunManifestName()].content) == Some(m)
            && d.payload.sourceManifestPath == Under(d.payload.primaryRunDirectory, RunManifestName())
  {
    hide Subtree, RunInventory, Collected, ManifestExact, SiblingJournal, TotalSize, InventoryMatches, Listing, CrossChecked,
      RunManifestName, DescriptorName, WellFormed, DescribesRun, Runs;
    SubtreeTwice(tree, Runs(), d.payload.sourceRunDirectoryName);
  }

  /** The manifest an accepted wrapper carries is the one its descriptor names, and binds exactly the
      artifacts delivered below the primary run. */
  lemma AcceptedDescribesRun(c: Context, tree: Tree, d: Descriptor) returns (m: Manifest)
    requires WellFormed(tree) && Accepts(c, tree, d)
    ensures var p := d.payload;
            && p.sourceManifestPath in tree && tree[p.sourceManifestPath].File?
            && c.parseManifest(tree[p.sourceManifestPath].content) == Some(m)
            && p.sourceManifestFileSha256 == FileHash(tree[p.sourceManifestPath].content)
            && m.runId == p.sourceRunId && m.selfSha256 == p.sourceManifestSelfSha256
            && forall b :: b in m.artifacts <==>
                 b.path != RunManifestName() && Prefixed(b, p.primaryRunDirectory) in p.artifacts
  {
    hide Accepts, WellFormed, Inventoried, RunManifestName, Runs, RunDirectory, JournalDirectory, Subtree, RunValid,
      RunInventory, InventoryMatches, DescribesRun, Placed, DescriptorName, MarkerName, Under, BoundedFile;
    var p := d.payload;
    m := AcceptedContents(c, tree, d);
    AcceptedRun(c, tree, d, m);
    var run := Subtree(tree, p.primaryRunDirectory);
    assert BoundedFile(run, RunManifestName());
    ManifestInTree(tree, p.primaryRunDirectory);
    ManifestDescribed(c, tree, p, m);
    forall b ensures b in m.artifacts <==>
        b.path != RunManifestName() && Prefixed(b, p.primaryRunDirectory) in p.artifacts
    {
      ManifestBinds(c, tree, p, m, b);
    }
  }

  lemma ManifestInTree(tree: Tree, primary: string)
    requires BoundedFile(Subtree(tree, primary), RunManifestName())
    ensures Under(primary, RunManifestName()) in tree && tree[Under(primary, RunManifestName())].File?
    ensures tree[Under(primary, RunManifestName())] == Subtree(tree, primary)[RunManifestName()]
    ensures RunManifestName() in Subtree(tree, primary) && Subtree(tree, primary)[RunManifestName()].File?
  {
    hide Subtree;
    SubtreeAt(tree, primary, RunManifestName());
  }

  lemma ManifestDescribed(c: Context, tree: Tree, p: Payload, m: Manifest)
    requires ContentsMatch(c, tree, p, m)
    ensures var run := Subtree(Subtree(tree, Runs()), p.sourceRunDirectoryName);
            && BoundedFile(run, RunManifestName())
            && p.sourceManifestFileSha256 == FileHash(run[RunManifestName()].content)
            && m.runId == p.sourceRunId && m.selfSha256 == p.sourceManifestSelfSha256
  {
    hide Subtree, RunValid, InventoryMatches, RunManifestName, Runs, RunInventory, BindingsOf, Ascending, NoDuplicates,
      FileBindings;
    var runs := Subtree(tree, Runs());
    var run := Subtree(runs, p.sourceRunDirectoryName);
    ManifestIsFile(c, runs, p.sourceRunDirectoryName, m);
    InventoryIsExact(c, runs, p.sourceRunDirectoryName, m);
    var inventory := RunInventory(m, run);
    var own := Bind(RunManifestName(), run[RunManifestName()]);
    assert own in Elements(inventory);
    AscendingDistinct(Paths(inventory));
    OneBinding(inventory, RunManifestName());
    PathMembers(inventory, RunManifestName());
    SamePath(inventory, BindingsOf(inventory, RunManifestName())[0], own);
  }

  lemma ManifestBinds(c: Context, tree: Tree, p: Payload, m: Manifest, b: Binding)
    requires WellFormed(tree) && IsDirectory(tree, Runs()) && ContentsMatch(c, tree, p, m) && Placed(p)
    ensures b in m.artifacts <==> b.path != RunManifestName() && Prefixed(b, p.primaryRunDirectory) in p.artifacts
  {
    hide Subtree, RunInventory, Inventoried, RunManifestName, Runs, RunDirectory, JournalDirectory, WellFormed, Under,
      RunsLayout, SortBindings, DescribesRun, Listing, SiblingJournal, JournalPath, FileBindings;
    var runs := Subtree(tree, Runs());
    var name := p.sourceRunDirectoryName;
    ManifestIsFile(c, runs, name, m);
    var inventory := RunInventory(m, Subtree(runs, name));
    InventoryMembers(c, runs, name, m, b);
    var k := Prefixed(b, p.primaryRunDirectory);
    ArtifactMembers(c, tree, p, inventory, k);
    if b in inventory { PrefixedMember(inventory, p.primaryRunDirectory, b); }
    if k in PrefixAll(inventory, p.primaryRunDirectory) {
      var a := PrefixAllMembers(inventory, p.primaryRunDirectory, k);
      UnderInjective(p.primaryRunDirectory, a.path, b.path);
    }
    forall i | 0 <= i < |p.dependencies| ensures k !in p.dependencies[i].artifacts {
      var d := p.dependencies[i];
      assert JournalMatches(c, tree, d);
      if k in d.artifacts {
        var bs :| Collected(c, Subtree(tree, d.journalDirectory), bs) && PrefixAll(bs, d.journalDirectory) == d.artifacts;
        var a := PrefixAllMembers(bs, d.journalDirectory, k);
        OwnerDiffers(c, tree, p, m, i);
        BelowJournal(d.reference.owner, a.path);
        RunsSeparate(name, d.reference.owner, b.path, JournalPath() + "/" + a.path);
      }
    }
  }

  lemma InventoryMembers(c: Context, runs: Tree, name: string, m: Manifest, b: Binding)
    requires RunValid(c, runs, name, m)
    ensures BoundedFile(Subtree(runs, name), RunManifestName())
    ensures b in m.artifacts <==> b in RunInventory(m, Subtree(runs, name)) && b.path != RunManifestName()
  {
    hide Subtree, SortBindings, RunManifestName, SortedSet, Listing, SiblingJournal, TotalSize, Collected, CrossChecked;
    var own := Bind(RunManifestName(), Subtree(runs, name)[RunManifestName()]);
    var all := m.artifacts + [own];
    SortBindingsPaths(all);
    assert b in SortBindings(all) <==> b in Elements(SortBindings(all));
    assert b in all <==> b in Elements(all);
    PathMembers(m.artifacts, RunManifestName());
  }
}
