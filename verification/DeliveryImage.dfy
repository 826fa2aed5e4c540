/** The wrapper that a sealed descriptor describes: built from the descriptor alone, it is the source
    run and its journal over again, and verification accepts it. */
module DeliveryImage {
  import opened Text
  import opened Trees
  import opened Delivery
  import opened DeliveryVerification
  import opened SourceRun
  import JournalManifest
  import DirectoryInventory
  import PortablePaths

  /** The bytes bound to a path. */
  function BytesAt(bs: seq<Binding>, k: string): Bytes {
    var found := BindingsOf(bs, k);
    if found != [] && found[0].sha256.FileHash? then found[0].sha256.bytes else []
  }

  function NodeAt(p: Payload, k: string): Node {
    if k == "" || k in p.directories then Directory else File(BytesAt(p.artifacts, k), 1)
  }

  /** The listed directories and the bound files, with no descriptor yet. */
  ghost function Image(p: Payload): Tree {
    map k | k in {""} + Elements(p.directories) + Elements(Paths(p.artifacts)) :: NodeAt(p, k)
  }

  /** The image with its descriptor. */
  ghost function Delivered(c: Context, d: Descriptor): Tree {
    Image(d.payload)[DescriptorName() := File(c.encodeDescriptor(d), 1)]
  }

  /** A journal without the file that collection passes over. */
  function Trimmed(journal: Tree): Tree {
    map k | k in journal.Keys && !(k == RunManifestName() && journal[k].File?) :: journal[k]
  }

  /** What the delivery of an observed run is made of. */
  ghost predicate Shippable(c: Context, runs: Tree, name: string, run: Run) {
    WellFormed(runs) && Sound(c.rules) && Observable(c, runs, name, run)
  }

  ghost predicate Payloads(run: Run, p: Payload) {
    && p.directories == DeliveryDirectories(run)
    && p.artifacts == DeliveryArtifacts(run)
    && p.dependencies == Dependencies(run)
    && p.sourceRunDirectoryName == run.name
    && p.primaryRunDirectory == RunDirectory(run.name)
  }

  // ---------------------------------------------------------------- the listed directories

  /** Runs directory, primary run and the owner's directories above the journal. */
  predicate IsFrame(run: Run, k: string) {
    || k == Runs() || k == RunDirectory(run.name)
    || (run.journal.Some?
        && var owner := run.journal.value.reference.owner;
           k == RunDirectory(owner) || k == Under(RunDirectory(owner), "private") || k == JournalDirectory(owner))
  }

  predicate InRun(run: Run, names: seq<string>, k: string) {
    IsBelow(RunDirectory(run.name), k) && k != RunDirectory(run.name) && Relative(RunDirectory(run.name), k) in names
  }

  predicate InJournal(j: Journal, names: seq<string>, k: string) {
    var jd := JournalDirectory(j.reference.owner);
    IsBelow(jd, k) && k != jd && Relative(jd, k) in names
  }

  lemma UnderAllMembers(prefix: string, names: seq<string>, k: string)
    requires "" !in names
    ensures k in UnderAll(prefix, names) <==> IsBelow(prefix, k) && k != prefix && Relative(prefix, k) in names
  {
    hide IsBelow;
    if k in UnderAll(prefix, names) {
      var i :| 0 <= i < |names| && UnderAll(prefix, names)[i] == k;
      assert names[i] in names;
      BelowRelative(prefix, names[i]);
      assert k == Below(prefix, names[i]);
      assert |k| > |prefix|;
    }
    if IsBelow(prefix, k) && k != prefix && Relative(prefix, k) in names {
      RelativeBelow(prefix, k);
      var i :| 0 <= i < |names| && names[i] == Relative(prefix, k);
      assert UnderAll(prefix, names)[i] == k;
    }
  }

  lemma DirectoryMembers(c: Context, runs: Tree, name: string, run: Run, k: string)
    requires Shippable(c, runs, name, run)
    ensures k in DeliveryDirectories(run) <==>
              || IsFrame(run, k) || InRun(run, run.directories, k)
              || (run.journal.Some? && InJournal(run.journal.value, run.journal.value.directories, k))
  {
    hide SortedSet, Ascending, UnderAll, Runs, RunDirectory, JournalDirectory, Under, RunValid, IsBelow,
      DirectoryInventory.Acceptable, Collected, Sound, WellFormed, RunInventory, Subtree, BindingsOf, Dependencies,
      ReferencePath;
    var own := [Runs(), RunDirectory(run.name)] + UnderAll(RunDirectory(run.name), run.directories);
    JournalDependency(c, runs, name, run);
    var all := if Dependencies(run) == [] then own else own + Dependencies(run)[0].directories;
    SortedSetCorrect(all);
    assert k in DeliveryDirectories(run) <==> k in Elements(SortedSet(all));
    assert k in all <==> k in Elements(all);
    NoEmptyName(c, Subtree(runs, name), run.directories);
    UnderAllMembers(RunDirectory(run.name), run.directories, k);
    assert k in own <==>
             k == Runs() || k == RunDirectory(run.name) || k in UnderAll(RunDirectory(run.name), run.directories);
    if run.journal.Some? {
      var j := run.journal.value;
      NoEmptyName(c, Subtree(runs, JournalPlace(j.reference)), j.directories);
      UnderAllMembers(JournalDirectory(j.reference.owner), j.directories, k);
    }
  }

  lemma NoEmptyName(c: Context, tree: Tree, directories: seq<string>)
    requires Inventoried(c, tree, directories)
    ensures "" !in directories
  {
    assert "" in directories ==> "" in Elements(directories);
  }

  lemma JournalDependency(c: Context, runs: Tree, name: string, run: Run)
    requires Shippable(c, runs, name, run)
    ensures Observed(c.rules, run)
    ensures run.journal.None? ==> Dependencies(run) == []
    ensures run.journal.Some? ==>
              && BindingsOf(run.inventory, ReferencePath()) != []
              && Dependencies(run) ==
                   [BuildDependency(run, run.journal.value, BindingsOf(run.inventory, ReferencePath())[0].sha256)]
  {
    hide Observed, Dependencies, Observable, Sound, BindingsOf, ReferencePath;
    ObservableIsObserved(c, runs, name, run);
    DependenciesShape(c.rules, run);
    if run.journal.Some? { DependencyIs(c.rules, run); }
  }

  // ---------------------------------------------------------------- the bound files

  lemma ArtifactPaths(c: Context, runs: Tree, name: string, run: Run, k: string)
    requires Shippable(c, runs, name, run)
    ensures k in Paths(DeliveryArtifacts(run)) <==>
              || InRun(run, Paths(run.inventory), k)
              || (run.journal.Some? && InJournal(run.journal.value, Paths(run.journal.value.artifacts), k))
  {
    hide Observed, DeliveryArtifacts, RunDirectory, JournalDirectory, Under, IsBelow, Sound, RunValid, Collected,
      WellFormed, RunInventory, Subtree, Inventoried, Paths, ReferencePath;
    JournalDependency(c, runs, name, run);
    DeliveryPath(c.rules, run, k);
    NoEmptyPath(c, runs, name, run);
    PrefixedPaths(run.inventory, RunDirectory(run.name));
    UnderAllMembers(RunDirectory(run.name), Paths(run.inventory), k);
    if run.journal.Some? {
      var j := run.journal.value;
      PrefixedPaths(j.artifacts, JournalDirectory(j.reference.owner));
      UnderAllMembers(JournalDirectory(j.reference.owner), Paths(j.artifacts), k);
    } else {
      assert Paths([]) == [] by { NoPaths(); }
    }
  }

  lemma PrefixedPaths(bs: seq<Binding>, prefix: string)
    ensures Paths(PrefixAll(bs, prefix)) == UnderAll(prefix, Paths(bs))
  {
  }

  lemma CollectedPath(c: Context, tree: Tree, bs: seq<Binding>, k: string)
    requires WellFormed(tree) && Collected(c, tree, bs)
    ensures k in Paths(bs) <==> Collects(tree, k)
    ensures "" !in Paths(bs)
  {
    hide Ascending, TotalSize, AllAllowed;
    RootIsDirectory(tree);
    PathMembers(bs, k);
    if k in Paths(bs) {
      var b :| b in bs && b.path == k;
      CollectedElements(c, tree, bs, b);
    }
    if Collects(tree, k) {
      assert Bind(k, tree[k]) in FileBindings(tree);
      CollectedElements(c, tree, bs, Bind(k, tree[k]));
    }
    if "" in Paths(bs) {
      PathMembers(bs, "");
      var b :| b in bs && b.path == "";
      CollectedHolds(c, tree, bs, b);
    }
  }

  lemma RunPath(c: Context, runs: Tree, name: string, run: Run, k: string)
    requires WellFormed(runs) && Observable(c, runs, name, run)
    ensures k in Paths(run.inventory) <==> k in Subtree(runs, name) && Subtree(runs, name)[k].File?
  {
    hide Subtree, RunInventory, WellFormed, Collected, Inventoried, ReferencePath, RunValid;
    var tree := Subtree(runs, name);
    InventoryIsExact(c, runs, name, run.manifest);
    PathMembers(run.inventory, k);
    ManifestIsFile(c, runs, name, run.manifest);
    if k in Paths(run.inventory) {
      var b :| b in run.inventory && b.path == k;
      InventoryHolds(c, runs, name, run.manifest, b);
    }
    if k in tree && tree[k].File? {
      var b := Bind(k, tree[k]);
      assert b in Elements(run.inventory) by {
        if k != RunManifestName() { assert Collects(tree, k); assert b in FileBindings(tree); }
      }
    }
  }

  lemma NoEmptyPath(c: Context, runs: Tree, name: string, run: Run)
    requires WellFormed(runs) && Observable(c, runs, name, run)
    ensures "" !in Paths(run.inventory)
    ensures run.journal.Some? ==> "" !in Paths(run.journal.value.artifacts)
  {
    hide Subtree, RunInventory, WellFormed, Collected, Inventoried, ReferencePath, RunValid, Paths;
    ManifestIsFile(c, runs, name, run.manifest);
    SubtreeWellFormed(runs, name);
    RootIsDirectory(Subtree(runs, name));
    RunPath(c, runs, name, run, "");
    if run.journal.Some? {
      var j := run.journal.value;
      PlaceNotEmpty(j.reference.owner);
      SubtreeWellFormed(runs, JournalPlace(j.reference));
      CollectedPath(c, Subtree(runs, JournalPlace(j.reference)), j.artifacts, "");
    }
  }

  // ---------------------------------------------------------------- the image holds the source again

  /** Directories and unshared files are all there is. */
  lemma NothingSpecial(c: Context, tree: Tree, directories: seq<string>, k: string)
    requires WellFormed(tree) && Inventoried(c, tree, directories) && k in tree
    ensures tree[k] == Directory || (tree[k].File? && tree[k].links == 1)
  {
    hide WellFormed, IsChild;
    if k == "" {
      RootIsDirectory(tree);
    } else {
      var q := Parent(tree, k);
      assert DirectoryInventory.SafeBelow(c.safe, tree, q);
      assert DirectoryInventory.SafeEntry(c.safe, tree, q, k);
    }
  }

  lemma BoundBytes(bs: seq<Binding>, b: Binding)
    requires Ascending(Paths(bs)) && b in bs && b.sha256.FileHash?
    ensures BytesAt(bs, b.path) == b.sha256.bytes
  {
    hide Ascending, BindingsOf;
    AscendingDistinct(Paths(bs));
    PathMembers(bs, b.path);
    OneBinding(bs, b.path);
    SamePath(bs, b, BindingsOf(bs, b.path)[0]);
  }

  /** A path below a run is not a frame directory and not below another run's journal. */
  lemma RunApart(run: Run, r: string)
    requires IsName(run.name) && r != ""
    requires run.journal.Some? ==>
               IsName(run.journal.value.reference.owner) && run.journal.value.reference.owner != run.name
    ensures !IsFrame(run, Under(RunDirectory(run.name), r))
    ensures run.journal.Some? ==>
              !IsBelow(JournalDirectory(run.journal.value.reference.owner), Under(RunDirectory(run.name), r))
  {
    hide IsBelow, JournalPath;
    var k := Under(RunDirectory(run.name), r);
    assert |k| > |RunDirectory(run.name)| > |Runs()|;
    if run.journal.Some? {
      var owner := run.journal.value.reference.owner;
      Apart(run.name, owner, r);
      RunsSeparate(run.name, owner, r, "private");
      RunsSeparate(run.name, owner, r, JournalPath());
      if IsBelow(JournalDirectory(owner), k) {
        RelativeBelow(JournalDirectory(owner), k);
        var x := Relative(JournalDirectory(owner), k);
        if x != "" {
          BelowJournal(owner, x);
          RunsSeparate(run.name, owner, r, JournalPath() + "/" + x);
        }
      }
    }
  }

  /** A run directory is not below another one. */
  lemma Apart(name: string, owner: string, r: string)
    requires IsName(owner)
    ensures Under(RunDirectory(name), r) != RunDirectory(owner)
  {
    var k := Under(RunDirectory(name), r);
    var i := |RunDirectory(name)|;
    assert k[i] == '/' && i > |Runs()|;
    assert forall j :: |Runs()| < j < |RunDirectory(owner)| ==> RunDirectory(owner)[j] in owner;
  }

  lemma RunNames(c: Context, runs: Tree, name: string, run: Run)
    requires Shippable(c, runs, name, run)
    ensures IsName(run.name) && run.name == name
    ensures run.journal.Some? ==>
              IsName(run.journal.value.reference.owner) && run.journal.value.reference.owner != run.name
  {
    hide RunValid, WellFormed, Inventoried, Collected, Subtree, RunInventory;
    assert c.rules.safeRunName(name);
  }

  /** Which paths of the primary run the image has, and what is there. */
  lemma ImageRunAt(c: Context, runs: Tree, name: string, run: Run, p: Payload, r: string)
    requires Shippable(c, runs, name, run) && Payloads(run, p) && r != ""
    ensures var k := Under(RunDirectory(name), r);
            && (k in Image(p) <==> r in Subtree(runs, name))
            && (k in Image(p) ==> Image(p)[k] == Subtree(runs, name)[r])
  {
    hide Subtree, RunInventory, WellFormed, Collected, ReferencePath, RunValid, Paths, RunDirectory, Under, IsBelow,
      BytesAt, DeliveryDirectories, DeliveryArtifacts, JournalObserved, DirectoryInventory.Acceptable, Observed,
      Ascending, Sound, IsFrame;
    var tree := Subtree(runs, name);
    var k := Below(RunDirectory(name), r);
    RunNames(c, runs, name, run);
    RunApart(run, r);
    BelowRelative(RunDirectory(name), r);
    assert k != RunDirectory(name) by { LongerBelow(RunDirectory(name), r); }
    DirectoryMembers(c, runs, name, run, k);
    ArtifactPaths(c, runs, name, run, k);
    RunPath(c, runs, name, run, r);
    RunTree(c, runs, name, run);
    assert r in run.directories <==> r in Elements(run.directories);
    assert k in p.directories <==> k in Elements(p.directories);
    assert k in Paths(p.artifacts) <==> k in Elements(Paths(p.artifacts));
    if r in tree {
      NothingSpecial(c, tree, run.directories, r);
      if tree[r].File? {
        RunBytes(c, runs, name, run, r);
      }
    }
  }

  lemma LongerBelow(p: string, r: string)
    requires r != ""
    ensures |Below(p, r)| > |p|
  {
  }

  lemma RunTree(c: Context, runs: Tree, name: string, run: Run)
    requires WellFormed(runs) && Observable(c, runs, name, run)
    ensures WellFormed(Subtree(runs, name)) && name != ""
  {
    hide Subtree, RunInventory, WellFormed, RunValid, Inventoried, JournalObserved;
    ManifestIsFile(c, runs, name, run.manifest);
    SubtreeWellFormed(runs, name);
  }

  lemma RunBytes(c: Context, runs: Tree, name: string, run: Run, r: string)
    requires Shippable(c, runs, name, run)
    requires r in Subtree(runs, name) && Subtree(runs, name)[r].File?
    ensures BytesAt(DeliveryArtifacts(run), Under(RunDirectory(name), r)) == Subtree(runs, name)[r].content
  {
    hide Subtree, RunInventory, WellFormed, Collected, ReferencePath, RunValid, Paths, RunDirectory, Under,
      BytesAt, DeliveryArtifacts, JournalObserved, Observed, Ascending, Inventoried, Sound;
    var tree := Subtree(runs, name);
    JournalDependency(c, runs, name, run);
    ArtifactsExact(c.rules, run);
    RunPath(c, runs, name, run, r);
    PathMembers(run.inventory, r);
    var b :| b in run.inventory && b.path == r;
    InventoryHolds(c, runs, name, run.manifest, b);
    PrefixedMember(run.inventory, RunDirectory(name), b);
    assert Prefixed(b, RunDirectory(name)) in Elements(DeliveryArtifacts(run)) by {
      assert Prefixed(b, RunDirectory(name)) in Elements(OwnArtifacts(run));
    }
    BoundBytes(DeliveryArtifacts(run), Prefixed(b, RunDirectory(name)));
  }

  /** The image below the primary run directory is the source run. */
  lemma ImageRun(c: Context, runs: Tree, name: string, run: Run, p: Payload)
    requires Shippable(c, runs, name, run) && Payloads(run, p)
    ensures Subtree(Image(p), RunDirectory(name)) == Subtree(runs, name)
  {
    hide Subtree, RunInventory, WellFormed, Observable, DeliveryDirectories, DeliveryArtifacts, RunDirectory, Under,
      Image, NodeAt, Runs;
    var a, b := Subtree(Image(p), RunDirectory(name)), Subtree(runs, name);
    RunTree(c, runs, name, run);
    RootIsDirectory(b);
    forall r ensures (r in a <==> r in b) && (r in a ==> a[r] == b[r]) {
      SubtreeAt(Image(p), RunDirectory(name), r);
      if r == "" {
        ImageFrame(c, runs, name, run, p, RunDirectory(name));
      } else {
        ImageRunAt(c, runs, name, run, p, r);
      }
    }
  }

  lemma ImageFrame(c: Context, runs: Tree, name: string, run: Run, p: Payload, k: string)
    requires Shippable(c, runs, name, run) && Payloads(run, p)
    requires IsFrame(run, k) || (k == RunDirectory(name)) || k == Runs()
    ensures k in Image(p) && Image(p)[k] == Directory
  {
    hide RunInventory, WellFormed, DeliveryDirectories, DeliveryArtifacts, RunDirectory, Under, RunValid,
      JournalObserved, Inventoried, Sound, Runs, Subtree;
    DirectoryMembers(c, runs, name, run, k);
    assert k in Elements(p.directories);
  }

  // ---------------------------------------------------------------- the journal again

  lemma TrimmedAt(journal: Tree, k: string)
    ensures k in Trimmed(journal) <==> k in journal && (journal[k].File? ==> Collects(journal, k))
    ensures k in Trimmed(journal) ==> Trimmed(journal)[k] == journal[k]
  {
  }

  lemma TrimmedWellFormed(journal: Tree)
    requires WellFormed(journal)
    ensures WellFormed(Trimmed(journal))
  {
    hide IsChild, Trimmed;
    var t := Trimmed(journal);
    TrimmedAt(journal, "");
    forall k | k in t && k != "" ensures HasParent(t, k) {
      TrimmedAt(journal, k);
      var q :| q in journal && journal[q] == Directory && IsChild(q, k);
      TrimmedAt(journal, q);
      assert q in t && t[q] == Directory;
    }
  }

  lemma TrimmedCollected(c: Context, journal: Tree, bs: seq<Binding>)
    requires Collected(c, journal, bs)
    ensures Collected(c, Trimmed(journal), bs)
  {
    hide Trimmed, TotalSize, Ascending;
    var t := Trimmed(journal);
    forall b ensures b in FileBindings(t) <==> b in FileBindings(journal) {
      if b in FileBindings(t) {
        var k :| k in t && Collects(t, k) && b == Bind(k, t[k]);
        TrimmedAt(journal, k);
        assert Collects(journal, k);
      }
      if b in FileBindings(journal) {
        var k :| k in journal && Collects(journal, k) && b == Bind(k, journal[k]);
        TrimmedAt(journal, k);
        assert Collects(t, k);
      }
    }
    assert FileBindings(t) == FileBindings(journal);
    forall k | k in t && k != "" && k != RunManifestName() ensures EntryAllowed(c, t, k) {
      TrimmedAt(journal, k);
      assert EntryAllowed(c, journal, k);
    }
  }

  lemma TrimmedInventoried(c: Context, journal: Tree, ds: seq<string>)
    requires Inventoried(c, journal, ds)
    ensures Inventoried(c, Trimmed(journal), ds)
  {
    hide Trimmed, IsChild, Ascending;
    var t := Trimmed(journal);
    forall k ensures k in Directories(t) <==> k in Directories(journal) { TrimmedAt(journal, k); }
    assert Directories(t) == Directories(journal);
    forall q | q in t && t[q] == Directory ensures DirectoryInventory.SafeBelow(c.safe, t, q) {
      TrimmedAt(journal, q);
      assert DirectoryInventory.SafeBelow(c.safe, journal, q);
      forall k | k in t && IsChild(q, k) ensures DirectoryInventory.SafeEntry(c.safe, t, q, k) {
        TrimmedAt(journal, k);
        assert DirectoryInventory.SafeEntry(c.safe, journal, q, k);
      }
    }
  }

  function SourceJournal(runs: Tree, j: Journal): Tree {
    Subtree(runs, JournalPlace(j.reference))
  }

  lemma JournalTree(c: Context, runs: Tree, name: string, run: Run)
    requires WellFormed(runs) && Observable(c, runs, name, run) && run.journal.Some?
    ensures var j := run.journal.value;
            && WellFormed(SourceJournal(runs, j))
            && Collected(c, SourceJournal(runs, j), j.artifacts) && Inventoried(c, SourceJournal(runs, j), j.directories)
  {
    hide Subtree, RunInventory, WellFormed, RunValid, Inventoried, Collected;
    PlaceNotEmpty(run.journal.value.reference.owner);
    SubtreeWellFormed(runs, JournalPlace(run.journal.value.reference));
  }

  /** A path below the journal is not a frame directory and not below the primary run. */
  lemma JournalApart(run: Run, r: string)
    requires IsName(run.name) && r != "" && run.journal.Some?
    requires IsName(run.journal.value.reference.owner) && run.journal.value.reference.owner != run.name
    ensures var k := Under(JournalDirectory(run.journal.value.reference.owner), r);
            !IsFrame(run, k) && !IsBelow(RunDirectory(run.name), k)
  {
    hide IsBelow;
    var owner := run.journal.value.reference.owner;
    var k := Under(JournalDirectory(owner), r);
    BelowJournal(owner, r);
    assert |k| > |JournalDirectory(owner)| > |Under(RunDirectory(owner), "private")| > |RunDirectory(owner)| > |Runs()|;
    Apart(owner, run.name, JournalPath() + "/" + r);
    if IsBelow(RunDirectory(run.name), k) {
      RelativeBelow(RunDirectory(run.name), k);
      RunsSeparate(run.name, owner, Relative(RunDirectory(run.name), k), JournalPath() + "/" + r);
    }
  }

  lemma JournalBytes(c: Context, runs: Tree, name: string, run: Run, r: string)
    requires Shippable(c, runs, name, run) && run.journal.Some?
    requires Collects(SourceJournal(runs, run.journal.value), r)
    ensures BytesAt(DeliveryArtifacts(run), Under(JournalDirectory(run.journal.value.reference.owner), r)) ==
            SourceJournal(runs, run.journal.value)[r].content
  {
    hide Subtree, RunInventory, WellFormed, Collected, ReferencePath, RunValid, Paths, RunDirectory, Under,
      BytesAt, DeliveryArtifacts, JournalObserved, Observed, Ascending, Inventoried, Sound, SourceJournal,
      JournalDirectory;
    var j := run.journal.value;
    var tree := SourceJournal(runs, j);
    var prefix := JournalDirectory(j.reference.owner);
    JournalDependency(c, runs, name, run);
    JournalTree(c, runs, name, run);
    ArtifactsExact(c.rules, run);
    var b := Bind(r, tree[r]);
    assert b in FileBindings(tree);
    CollectedElements(c, tree, j.artifacts, b);
    PrefixedMember(j.artifacts, prefix, b);
    assert Prefixed(b, prefix) in Elements(DeliveryArtifacts(run)) by {
      assert Prefixed(b, prefix) in Elements(JournalArtifacts(run));
    }
    BoundBytes(DeliveryArtifacts(run), Prefixed(b, prefix));
  }

  lemma ImageJournalAt(c: Context, runs: Tree, name: string, run: Run, p: Payload, r: string)
    requires Shippable(c, runs, name, run) && Payloads(run, p) && r != "" && run.journal.Some?
    ensures var k := Under(JournalDirectory(run.journal.value.reference.owner), r);
            var journal := Trimmed(SourceJournal(runs, run.journal.value));
            && (k in Image(p) <==> r in journal)
            && (k in Image(p) ==> Image(p)[k] == journal[r])
  {
    hide Subtree, RunInventory, WellFormed, Collected, ReferencePath, RunValid, Paths, RunDirectory, Under, IsBelow,
      BytesAt, DeliveryDirectories, DeliveryArtifacts, JournalObserved, DirectoryInventory.Acceptable, Observed,
      Ascending, Sound, IsFrame, SourceJournal, JournalDirectory, Trimmed;
    var j := run.journal.value;
    var tree := SourceJournal(runs, j);
    var prefix := JournalDirectory(j.reference.owner);
    var k := Below(prefix, r);
    RunNames(c, runs, name, run);
    JournalApart(run, r);
    BelowRelative(prefix, r);
    assert k != prefix by { LongerBelow(prefix, r); }
    DirectoryMembers(c, runs, name, run, k);
    ArtifactPaths(c, runs, name, run, k);
    JournalTree(c, runs, name, run);
    CollectedPath(c, tree, j.artifacts, r);
    TrimmedAt(tree, r);
    assert r in j.directories <==> r in Elements(j.directories);
    assert k in p.directories <==> k in Elements(p.directories);
    assert k in Paths(p.artifacts) <==> k in Elements(Paths(p.artifacts));
    if r in tree {
      NothingSpecial(c, tree, j.directories, r);
      if Collects(tree, r) { JournalBytes(c, runs, name, run, r); }
    }
  }

  /** A journal with the control layout has nothing to trim. */
  lemma LayoutUntrimmed(journal: Tree)
    requires ControlLayout(journal)
    ensures Trimmed(journal) == journal
  {
    hide ControlLayout, RunManifestName;
    LayoutHasNoManifest(journal);
  }

  lemma SourceSibling(c: Context, runs: Tree, name: string, run: Run)
    requires Observable(c, runs, name, run) && run.journal.Some?
    ensures ReferencePath() in Subtree(runs, name)
    ensures SiblingJournal(c, runs, Subtree(runs, name)) == Some(SourceJournal(runs, run.journal.value))
  {
    hide Subtree, RunValid, Inventoried, Collected, RunInventory, ReferencePath, Paths;
  }

  lemma SourceCustody(c: Context, runs: Tree, name: string, run: Run)
    requires Observable(c, runs, name, run)
    ensures SchedulerCustody(c, name, Subtree(runs, name), SiblingJournal(c, runs, Subtree(runs, name)))
  {
    hide Subtree, Inventoried, Collected, RunInventory, ReferencePath, Paths, SiblingJournal, SchedulerCustody,
      JournalObserved, ManifestExact, Listing, RunManifestName, PublicSubsetName, TotalSize;
  }

  /** A run that keeps scheduler state refers to a journal with the control layout. */
  lemma StateUntrimmed(c: Context, runs: Tree, name: string, run: Run)
    requires Observable(c, runs, name, run) && run.journal.Some? && SchedulerStateName() in Subtree(runs, name)
    ensures Trimmed(SourceJournal(runs, run.journal.value)) == SourceJournal(runs, run.journal.value)
  {
    hide Subtree, Observable, ControlLayout, Trimmed, SourceJournal, ReferencePath, JournalPath, SchedulerStateName,
      SiblingJournal, ReferenceTo;
    SourceCustody(c, runs, name, run);
    SourceSibling(c, runs, name, run);
    LayoutUntrimmed(SourceJournal(runs, run.journal.value));
  }

  /** The image below the journal directory is the source journal: all of it when the run keeps scheduler
      state, and otherwise all but the file that collection passes over. */
  lemma ImageJournal(c: Context, runs: Tree, name: string, run: Run, p: Payload)
    requires Shippable(c, runs, name, run) && Payloads(run, p) && run.journal.Some?
    ensures Subtree(Image(p), JournalDirectory(run.journal.value.reference.owner)) ==
            Trimmed(SourceJournal(runs, run.journal.value))
    ensures SchedulerStateName() in Subtree(runs, name) ==>
              Subtree(Image(p), JournalDirectory(run.journal.value.reference.owner)) ==
              SourceJournal(runs, run.journal.value)
  {
    hide Subtree, RunInventory, WellFormed, Observable, DeliveryDirectories, DeliveryArtifacts, JournalDirectory, Under,
      Image, NodeAt, Runs, Trimmed, SourceJournal, RunDirectory, Inventoried, Collected, SchedulerStateName;
    if SchedulerStateName() in Subtree(runs, name) { StateUntrimmed(c, runs, name, run); }
    var j := run.journal.value;
    var prefix := JournalDirectory(j.reference.owner);
    var a, b := Subtree(Image(p), prefix), Trimmed(SourceJournal(runs, j));
    JournalTree(c, runs, name, run);
    TrimmedWellFormed(SourceJournal(runs, j));
    RootIsDirectory(b);
    forall r ensures (r in a <==> r in b) && (r in a ==> a[r] == b[r]) {
      SubtreeAt(Image(p), prefix, r);
      if r == "" {
        ImageFrame(c, runs, name, run, p, prefix);
      } else {
        ImageJournalAt(c, runs, name, run, p, r);
      }
    }
  }

  // ---------------------------------------------------------------- the shape of the image

  /** Where a path of the image can be. */
  lemma ImageKinds(c: Context, runs: Tree, name: string, run: Run, p: Payload, k: string)
    requires Shippable(c, runs, name, run) && Payloads(run, p) && k in Image(p) && k != ""
    ensures || IsFrame(run, k)
            || (IsBelow(RunDirectory(name), k) && k != RunDirectory(name))
            || (run.journal.Some? && IsBelow(JournalDirectory(run.journal.value.reference.owner), k)
                && k != JournalDirectory(run.journal.value.reference.owner))
  {
    hide Subtree, RunInventory, WellFormed, Collected, RunValid, Paths, RunDirectory, Under, IsBelow, ReferencePath,
      BytesAt, DeliveryDirectories, DeliveryArtifacts, JournalObserved, Inventoried, Sound, JournalDirectory, IsFrame;
    DirectoryMembers(c, runs, name, run, k);
    ArtifactPaths(c, runs, name, run, k);
  }

  lemma ChildOfBelow(p: string, q: string, r: string)
    requires p != "" && IsChild(q, r) && EndsInName(r)
    ensures IsChild(Below(p, q), Under(p, r)) && NameIn(Below(p, q), Under(p, r)) == NameIn(q, r)
  {
    NameChild(q, r);
    var n := NameIn(q, r);
    assert Under(p, r) == Child(Below(p, q), n);
    ChildName(Below(p, q), n);
  }

  /** Every entry of a grafted subtree has its directory in the image. */
  lemma GraftedParent(image: Tree, p: string, sub: Tree, r: string)
    requires p != "" && sub == Subtree(image, p) && WellFormed(sub) && r in sub && r != ""
    ensures HasParent(image, Under(p, r))
  {
    hide Subtree, IsChild, Under, WellFormed;
    var q := Parent(sub, r);
    KeyEndsInName(sub, r);
    ChildOfBelow(p, q, r);
    SubtreeAt(image, p, q);
    assert Below(p, q) in image && image[Below(p, q)] == Directory && IsChild(Below(p, q), Under(p, r));
  }

  lemma NamedParent(image: Tree, p: string, n: string)
    requires IsDirectory(image, p) && IsName(n)
    ensures HasParent(image, Child(p, n))
  {
    ChildName(p, n);
  }

  lemma FixedNames(owner: string)
    ensures IsName(Runs()) && IsName("private") && IsName("scheduler-journal")
    ensures Child("", Runs()) == Runs()
    ensures Child(Runs(), owner) == RunDirectory(owner) != ""
    ensures Child(RunDirectory(owner), "private") == Under(RunDirectory(owner), "private") != ""
    ensures Child(Under(RunDirectory(owner), "private"), "scheduler-journal") == JournalDirectory(owner) != ""
  {
  }

  lemma FrameParent(c: Context, runs: Tree, name: string, run: Run, p: Payload, k: string)
    requires Shippable(c, runs, name, run) && Payloads(run, p) && IsFrame(run, k)
    ensures HasParent(Image(p), k)
  {
    hide Image, NodeAt, Runs, RunDirectory, JournalDirectory, Under, Observable, WellFormed, Sound, DeliveryDirectories,
      DeliveryArtifacts, Dependencies, HasParent, Child;
    RunNames(c, runs, name, run);
    var image := Image(p);
    RootOfImage(p);
    ImageFrame(c, runs, name, run, p, Runs());
    FixedNames(name);
    if k == Runs() {
      NamedParent(image, "", Runs());
    } else if k == RunDirectory(name) {
      NamedParent(image, Runs(), name);
    } else {
      var owner := run.journal.value.reference.owner;
      FixedNames(owner);
      ImageFrame(c, runs, name, run, p, RunDirectory(owner));
      ImageFrame(c, runs, name, run, p, Under(RunDirectory(owner), "private"));
      if k == RunDirectory(owner) {
        NamedParent(image, Runs(), owner);
      } else if k == Under(RunDirectory(owner), "private") {
        NamedParent(image, RunDirectory(owner), "private");
      } else {
        NamedParent(image, Under(RunDirectory(owner), "private"), "scheduler-journal");
      }
    }
  }

  lemma RootOfImage(p: Payload)
    ensures "" in Image(p) && Image(p)[""] == Directory
  {
  }

  lemma DeepParent(image: Tree, p: string, sub: Tree, k: string)
    requires p != "" && sub == Subtree(image, p) && WellFormed(sub) && k in image && IsBelow(p, k) && k != p
    ensures HasParent(image, k)
  {
    hide Subtree, IsChild, WellFormed, IsBelow, HasParent, Under;
    var r := Relative(p, k);
    RelativeBelow(p, k);
    SubtreeAt(image, p, r);
    GraftedParent(image, p, sub, r);
  }

  lemma ImageWellFormed(c: Context, runs: Tree, name: string, run: Run, p: Payload)
    requires Shippable(c, runs, name, run) && Payloads(run, p)
    ensures WellFormed(Image(p))
  {
    hide Image, NodeAt, Runs, RunDirectory, JournalDirectory, Under, Observable, Sound, DeliveryDirectories,
      DeliveryArtifacts, Dependencies, HasParent, Subtree, Trimmed, SourceJournal, IsFrame, IsBelow, Inventoried, Collected;
    var image := Image(p);
    RootOfImage(p);
    RunTree(c, runs, name, run);
    ImageRun(c, runs, name, run, p);
    FixedNames(name);
    forall k | k in image && k != "" ensures HasParent(image, k) {
      ImageKinds(c, runs, name, run, p, k);
      if IsFrame(run, k) {
        FrameParent(c, runs, name, run, p, k);
      } else if IsBelow(RunDirectory(name), k) && k != RunDirectory(name) {
        DeepParent(image, RunDirectory(name), Subtree(runs, name), k);
      } else {
        var j := run.journal.value;
        FixedNames(j.reference.owner);
        JournalTree(c, runs, name, run);
        TrimmedWellFormed(SourceJournal(runs, j));
        ImageJournal(c, runs, name, run, p);
        DeepParent(image, JournalDirectory(j.reference.owner), Trimmed(SourceJournal(runs, j)), k);
      }
    }
  }

  // ---------------------------------------------------------------- the listings of the image

  lemma NotNested(n: string, name: string, k: string)
    requires IsName(n) && IsBelow(RunDirectory(name), k) && k == RunDirectory(n)
    ensures k == RunDirectory(name)
  {
    hide RunDirectory, IsBelow;
    RelativeBelow(RunDirectory(name), k);
    var r := Relative(RunDirectory(name), k);
    if r != "" { Apart(name, n, r); }
  }

  lemma SameRun(m: string, n: string)
    requires RunDirectory(m) == RunDirectory(n)
    ensures m == n
  {
    UnderInjective(Runs(), m, n);
  }

  lemma JournalInOwner(owner: string, k: string)
    requires IsBelow(JournalDirectory(owner), k)
    ensures IsBelow(RunDirectory(owner), k) && k != RunDirectory(owner)
    ensures k != Under(RunDirectory(owner), "private")
    ensures Relative(RunDirectory(owner), k) == Below(JournalPath(), Relative(JournalDirectory(owner), k))
  {
    RelativeBelow(JournalDirectory(owner), k);
    var r := Relative(JournalDirectory(owner), k);
    assert k == Under(RunDirectory(owner), Below(JournalPath(), r));
    BelowRelative(RunDirectory(owner), Below(JournalPath(), r));
  }

  /** The runs in the image. */
  lemma ImageRuns(c: Context, runs: Tree, name: string, run: Run, p: Payload, n: string)
    requires Shippable(c, runs, name, run) && Payloads(run, p)
    ensures n in Listing(Image(p), Runs()) <==>
              n == name || (run.journal.Some? && n == run.journal.value.reference.owner)
  {
    hide Image, NodeAt, Runs, JournalDirectory, Under, Observable, Sound, DeliveryDirectories, RunDirectory,
      DeliveryArtifacts, Dependencies, WellFormed, Listing, IsBelow;
    RunNames(c, runs, name, run);
    ListingMember(Image(p), Runs(), n);
    FixedNames(n);
    if n == name || (run.journal.Some? && n == run.journal.value.reference.owner) {
      ImageFrame(c, runs, name, run, p, RunDirectory(n));
    } else if IsName(n) && RunDirectory(n) in Image(p) {
      var k := RunDirectory(n);
      ImageKinds(c, runs, name, run, p, k);
      RunBelowRuns(n);
      if k == RunDirectory(name) { SameRun(n, name); }
      if IsBelow(RunDirectory(name), k) { NotNested(n, name, k); }
      if run.journal.Some? {
        var owner := run.journal.value.reference.owner;
        if k == RunDirectory(owner) { SameRun(n, owner); }
        Apart(owner, n, "private");
        if IsBelow(JournalDirectory(owner), k) {
          JournalInOwner(owner, k);
          NotNested(n, owner, k);
        }
        BelowRelative(JournalDirectory(owner), "");
      }
    }
  }

  /** What the image has below the owner's run directory: the way to the journal, and the journal. */
  lemma ImageOwner(c: Context, runs: Tree, name: string, run: Run, p: Payload, x: string)
    requires Shippable(c, runs, name, run) && Payloads(run, p) && run.journal.Some? && x != ""
    requires Under(RunDirectory(run.journal.value.reference.owner), x) in Image(p)
    ensures x == "private" || IsBelow(JournalPath(), x)
  {
    hide Image, NodeAt, Runs, JournalDirectory, Observable, Sound, DeliveryDirectories, RunDirectory, Under,
      DeliveryArtifacts, Dependencies, WellFormed, Listing, IsBelow, JournalPath;
    RunNames(c, runs, name, run);
    var owner := run.journal.value.reference.owner;
    var k := Under(RunDirectory(owner), x);
    assert k == Below(RunDirectory(owner), x);
    LongerBelow(RunDirectory(owner), x);
    BelowRelative(RunDirectory(owner), x);
    RunLonger(owner);
    ImageKinds(c, runs, name, run, p, k);
    Apart(owner, name, x);
    if k == Under(RunDirectory(owner), "private") {
      UnderInjective(RunDirectory(owner), x, "private");
    } else if IsBelow(RunDirectory(name), k) {
      RelativeBelow(RunDirectory(name), k);
      RunsSeparate(owner, name, x, Relative(RunDirectory(name), k));
    } else {
      BelowRelative(JournalDirectory(owner), "");
      JournalInOwner(owner, k);
      BelowRelative(JournalPath(), Relative(JournalDirectory(owner), k));
    }
  }

  lemma RunLonger(owner: string)
    ensures |RunDirectory(owner)| > |Runs()|
  {
  }

  lemma PrivateOnly(n: string)
    requires IsName(n)
    ensures !IsBelow(JournalPath(), n)
  {
    assert JournalPath()[7] == '/';
    assert |n| > |JournalPath()| ==> n[..|JournalPath()| + 1][7] == n[7];
  }

  lemma JournalOnly(n: string)
    requires IsName(n)
    ensures "private/" + n != "private"
    ensures IsBelow(JournalPath(), "private/" + n) ==> n == "scheduler-journal"
  {
    var x := "private/" + n;
    assert |x| > |"private"|;
    if IsBelow(JournalPath(), x) && x != JournalPath() {
      SplitAt(JournalPath(), x);
    }
    if x == JournalPath() {
      assert x[8..] == n && JournalPath()[8..] == "scheduler-journal";
    }
  }

  lemma PrivateNames(owner: string, n: string)
    ensures Under(Under(RunDirectory(owner), "private"), n) == Under(RunDirectory(owner), "private/" + n)
  {
  }

  lemma ImageOwnerListing(c: Context, runs: Tree, name: string, run: Run, p: Payload, n: string)
    requires Shippable(c, runs, name, run) && Payloads(run, p) && run.journal.Some?
    ensures var owner := RunDirectory(run.journal.value.reference.owner);
            && (n in Listing(Image(p), owner) <==> n == "private")
            && (n in Listing(Image(p), Under(owner, "private")) <==> n == "scheduler-journal")
  {
    hide Image, NodeAt, Runs, JournalDirectory, Observable, Sound, DeliveryDirectories, RunDirectory, Under,
      DeliveryArtifacts, Dependencies, WellFormed, Listing, IsBelow, JournalPath;
    var owner := run.journal.value.reference.owner;
    FixedNames(owner);
    ListingMember(Image(p), RunDirectory(owner), n);
    ListingMember(Image(p), Under(RunDirectory(owner), "private"), n);
    ImageFrame(c, runs, name, run, p, Under(RunDirectory(owner), "private"));
    ImageFrame(c, runs, name, run, p, JournalDirectory(owner));
    if IsName(n) {
      PrivateOnly(n);
      JournalOnly(n);
      PrivateNames(owner, n);
      if Under(RunDirectory(owner), n) in Image(p) { ImageOwner(c, runs, name, run, p, n); }
      if Under(Under(RunDirectory(owner), "private"), n) in Image(p) {
        ImageOwner(c, runs, name, run, p, "private/" + n);
      }
    }
  }

  lemma ImageTop(c: Context, runs: Tree, name: string, run: Run, p: Payload)
    requires Shippable(c, runs, name, run) && Payloads(run, p)
    ensures Listing(Image(p), "") == {Runs()}
    ensures forall k :: k in Image(p) && '/' !in k ==> k == "" || k == Runs()
  {
    hide Image, NodeAt, JournalDirectory, Observable, Sound, DeliveryDirectories, DeliveryArtifacts, Dependencies,
      WellFormed, Listing, IsBelow;
    var image := Image(p);
    forall k | k in image && '/' !in k && k != "" ensures k == Runs() {
      ImageKinds(c, runs, name, run, p, k);
      SlashBelow(name, k);
      if run.journal.Some? {
        var owner := run.journal.value.reference.owner;
        SlashBelow(owner, k);
        if k == JournalDirectory(owner) || IsBelow(JournalDirectory(owner), k) {
          BelowRelative(JournalDirectory(owner), "");
          JournalInOwner(owner, k);
        }
        FrameSlashes(owner);
      }
    }
    FixedNames(name);
    ImageFrame(c, runs, name, run, p, Runs());
    forall n ensures n in Listing(image, "") <==> n == Runs() { ListingMember(image, "", n); }
  }

  lemma SlashBelow(name: string, k: string)
    requires '/' !in k
    ensures !IsBelow(RunDirectory(name), k) && k != RunDirectory(name)
  {
    assert RunDirectory(name)[|Runs()|] == '/';
    if IsBelow(RunDirectory(name), k) && k != RunDirectory(name) {
      SplitAt(RunDirectory(name), k);
    }
  }

  lemma FrameSlashes(owner: string)
    ensures '/' in RunDirectory(owner) && '/' in Under(RunDirectory(owner), "private")
  {
    assert RunDirectory(owner)[|Runs()|] == '/';
    assert Under(RunDirectory(owner), "private")[|Runs()|] == '/';
  }

  // ---------------------------------------------------------------- the image passes the checks

  /** Safe run names and the fixed names pass the component test. */
  ghost predicate SoundContext(c: Context) {
    && Sound(c.rules)
    && (forall n :: c.rules.safeRunName(n) ==> c.safe(n))
    && c.safe(Runs()) && c.safe("private") && c.safe("scheduler-journal")
    && c.safe(DescriptorName()) && c.safe(MarkerName()) && !c.safe(".")
  }

  /** The descriptor survives encoding. */
  predicate RoundTrips(c: Context, d: Descriptor) {
    c.parseDescriptor(c.encodeDescriptor(d)) == Some(d)
  }

  /** The journal as it is delivered. */
  ghost function DeliveredJournal(runs: Tree, run: Run): Option<Tree> {
    if run.journal.None? then None else Some(Trimmed(SourceJournal(runs, run.journal.value)))
  }

  predicate SafeNameIn(c: Context, q: string, k: string) {
    IsChild(q, k) && c.safe(NameIn(q, k))
  }

  /** Names in a grafted subtree are as safe as in the tree it was observed in. */
  lemma GraftedName(c: Context, image: Tree, p: string, sub: Tree, ds: seq<string>, q: string, k: string)
    requires p != "" && sub == Subtree(image, p) && WellFormed(sub) && Inventoried(c, sub, ds)
    requires k in image && IsBelow(p, k) && k != p && IsChild(q, k)
    ensures SafeNameIn(c, q, k)
  {
    hide Subtree, IsChild, WellFormed, IsBelow, Under, Ascending;
    var r := Relative(p, k);
    RelativeBelow(p, k);
    SubtreeAt(image, p, r);
    var s := Parent(sub, r);
    KeyEndsInName(sub, r);
    ChildOfBelow(p, s, r);
    DirectoryInventory.OneParent(q, Below(p, s), k);
    assert DirectoryInventory.SafeBelow(c.safe, sub, s);
    assert DirectoryInventory.SafeEntry(c.safe, sub, s, r);
  }

  lemma NamedChild(c: Context, p: string, n: string, q: string)
    requires IsName(n) && c.safe(n) && IsChild(q, Child(p, n))
    ensures SafeNameIn(c, q, Child(p, n))
  {
    ChildName(p, n);
    DirectoryInventory.OneParent(p, q, Child(p, n));
  }

  lemma FrameName(c: Context, runs: Tree, name: string, run: Run, q: string, k: string)
    requires SoundContext(c) && Shippable(c, runs, name, run) && IsFrame(run, k) && IsChild(q, k)
    ensures SafeNameIn(c, q, k)
  {
    hide Runs, RunDirectory, JournalDirectory, Under, RunValid, WellFormed, Sound, IsChild, Inventoried, Collected,
      Subtree, RunInventory, DescriptorName, MarkerName, ReferencePath, Child;
    RunNames(c, runs, name, run);
    FixedNames(name);
    if k == Runs() {
      NamedChild(c, "", Runs(), q);
    } else if k == RunDirectory(name) {
      NamedChild(c, Runs(), name, q);
    } else {
      var owner := run.journal.value.reference.owner;
      FixedNames(owner);
      if k == RunDirectory(owner) {
        NamedChild(c, Runs(), owner, q);
      } else if k == Under(RunDirectory(owner), "private") {
        NamedChild(c, RunDirectory(owner), "private", q);
      } else {
        NamedChild(c, Under(RunDirectory(owner), "private"), "scheduler-journal", q);
      }
    }
  }

  lemma ImageName(c: Context, runs: Tree, name: string, run: Run, p: Payload, q: string, k: string)
    requires SoundContext(c) && Shippable(c, runs, name, run) && Payloads(run, p) && k in Image(p) && IsChild(q, k)
    ensures SafeNameIn(c, q, k)
  {
    hide Runs, RunDirectory, JournalDirectory, Under, WellFormed, Sound, IsChild, Inventoried, Collected, Trimmed,
      Subtree, RunInventory, SoundContext, IsFrame, IsBelow, Image, SafeNameIn, SourceJournal, DeliveryDirectories,
      DeliveryArtifacts, Dependencies, RunValid, JournalObserved, ReferencePath;
    NameChild(q, k);
    ImageKinds(c, runs, name, run, p, k);
    if IsFrame(run, k) {
      FrameName(c, runs, name, run, q, k);
    } else if IsBelow(RunDirectory(name), k) && k != RunDirectory(name) {
      RunTree(c, runs, name, run);
      ImageRun(c, runs, name, run, p);
      FixedNames(name);
      GraftedName(c, Image(p), RunDirectory(name), Subtree(runs, name), run.directories, q, k);
    } else {
      var j := run.journal.value;
      FixedNames(j.reference.owner);
      JournalTree(c, runs, name, run);
      TrimmedWellFormed(SourceJournal(runs, j));
      TrimmedInventoried(c, SourceJournal(runs, j), j.directories);
      ImageJournal(c, runs, name, run, p);
      GraftedName(c, Image(p), JournalDirectory(j.reference.owner), Trimmed(SourceJournal(runs, j)), j.directories, q, k);
    }
  }

  /** Delivered paths are within the path bound. */
  lemma ImageLength(rules: Rules, run: Run, p: Payload, k: string)
    requires Deliverable(rules, run) && Payloads(run, p) && k in Image(p)
    ensures |k| <= MAX_PATH_LENGTH
  {
    hide PortablePaths.NoCollision, DeliveryArtifacts, DeliveryDirectories, Dependencies, WithinBounds, NodeAt, DescriptorName;
    if k in Elements(p.directories) {
      assert PortablePaths.PortableText(rules.tables, k);
    } else if k in Elements(Paths(p.artifacts)) {
      assert k in [DescriptorName()] + Paths(p.artifacts);
      assert PortablePaths.PortableText(rules.tables, k);
    }
  }

  lemma ImageDirectories(c: Context, runs: Tree, name: string, run: Run, p: Payload)
    requires Shippable(c, runs, name, run) && Payloads(run, p)
    ensures Directories(Image(p)) == Elements(p.directories)
  {
    hide Runs, RunDirectory, JournalDirectory, Under, Observable, WellFormed, Sound, DeliveryDirectories,
      DeliveryArtifacts, Dependencies, BytesAt, Paths;
    if "" in p.directories {
      DirectoryMembers(c, runs, name, run, "");
      NotEmptyFrames(run);
    }
    assert forall k :: k in Elements(p.directories) <==> k in p.directories;
  }

  lemma NotEmptyFrames(run: Run)
    ensures !IsFrame(run, "") && !IsBelow(RunDirectory(run.name), "")
    ensures run.journal.Some? ==> !IsBelow(JournalDirectory(run.journal.value.reference.owner), "")
  {
  }

  lemma ImageInventoried(c: Context, runs: Tree, name: string, run: Run, p: Payload)
    requires SoundContext(c) && Shippable(c, runs, name, run) && Payloads(run, p) && Deliverable(c.rules, run)
    ensures Inventoried(c, Image(p), p.directories)
  {
    hide Runs, RunDirectory, JournalDirectory, Under, Observable, WellFormed, Sound, IsChild, Directories,
      SoundContext, DeliveryDirectories, DeliveryArtifacts, Dependencies, BytesAt, Ascending, Paths, TotalSize,
      PortablePaths.Portable;
    ImageDirectories(c, runs, name, run, p);
    DirectoriesExact(run);
    AscendingSize(p.directories);
    var image := Image(p);
    forall q | q in image && image[q] == Directory ensures DirectoryInventory.SafeBelow(c.safe, image, q) {
      forall k | k in image && IsChild(q, k) ensures DirectoryInventory.SafeEntry(c.safe, image, q, k) {
        ImageName(c, runs, name, run, p, q, k);
        ImageLength(c.rules, run, p, k);
      }
    }
  }

  lemma ImageLayout(c: Context, runs: Tree, name: string, run: Run, p: Payload)
    requires SoundContext(c) && Shippable(c, runs, name, run) && Payloads(run, p)
    ensures RunsLayout(c, Image(p), p)
  {
    hide Image, NodeAt, Runs, RunDirectory, JournalDirectory, Under, WellFormed, Sound, DeliveryDirectories,
      DeliveryArtifacts, Dependencies, Listing, Inventoried, Collected, Subtree, RunInventory, RunValid,
      DescriptorName, MarkerName, ReferencePath, Child, IsName, BindingsOf;
    var image := Image(p);
    ImageFrame(c, runs, name, run, p, Runs());
    JournalDependency(c, runs, name, run);
    forall n ensures n in Listing(image, Runs()) <==> n in {name} + Owners(p.dependencies) {
      ImageRuns(c, runs, name, run, p, n);
    }
    if run.journal.Some? {
      var owner := run.journal.value.reference.owner;
      FixedNames(owner);
      ImageFrame(c, runs, name, run, p, RunDirectory(owner));
      ImageFrame(c, runs, name, run, p, Under(RunDirectory(owner), "private"));
      forall n ensures (n in Listing(image, RunDirectory(owner)) <==> n == "private")
        ensures (n in Listing(image, Under(RunDirectory(owner), "private")) <==> n == "scheduler-journal")
      {
        ImageOwnerListing(c, runs, name, run, p, n);
      }
      assert Listing(image, RunDirectory(owner)) == {"private"};
      assert Listing(image, Under(RunDirectory(owner), "private")) == {"scheduler-journal"};
      assert OwnerLayout(c, image, owner);
    }
  }

  lemma ImageMatchesJournal(c: Context, runs: Tree, name: string, run: Run, p: Payload, i: nat)
    requires Shippable(c, runs, name, run) && Payloads(run, p) && i < |p.dependencies|
    ensures JournalMatches(c, Image(p), p.dependencies[i])
  {
    hide Image, NodeAt, Runs, RunDirectory, JournalDirectory, Under, WellFormed, Sound, DeliveryDirectories,
      DeliveryArtifacts, Dependencies, Inventoried, Collected, Subtree, RunInventory, RunValid, SourceJournal, Trimmed,
      BindingsOf, ReferencePath, TotalSize;
    JournalDependency(c, runs, name, run);
    var j := run.journal.value;
    var tree := SourceJournal(runs, j);
    JournalTree(c, runs, name, run);
    TrimmedCollected(c, tree, j.artifacts);
    TrimmedInventoried(c, tree, j.directories);
    ImageJournal(c, runs, name, run, p);
    FixedNames(j.reference.owner);
    ImageFrame(c, runs, name, run, p, JournalDirectory(j.reference.owner));
    assert JournalDirectories(p.dependencies[i], j.directories) == p.dependencies[i].directories;
  }

  lemma ImageSibling(c: Context, runs: Tree, name: string, run: Run, p: Payload)
    requires Shippable(c, runs, name, run) && Payloads(run, p)
    ensures SiblingJournal(c, Subtree(Image(p), Runs()), Subtree(runs, name)) == DeliveredJournal(runs, run)
  {
    hide Image, NodeAt, Runs, RunDirectory, WellFormed, Sound, DeliveryDirectories, JournalDirectory,
      DeliveryArtifacts, Dependencies, Inventoried, Collected, Subtree, RunInventory, RunValid, SourceJournal, Trimmed,
      BindingsOf, ReferencePath, JournalPath, Under, Paths, Child;
    RunPath(c, runs, name, run, ReferencePath());
    if run.journal.Some? {
      var j := run.journal.value;
      var place := Under(j.reference.owner, JournalPath());
      PlaceNotEmpty(j.reference.owner);
      ImageJournal(c, runs, name, run, p);
      SubtreeTwice(Image(p), Runs(), place);
      RunsPlace(j.reference.owner);
      ImageFrame(c, runs, name, run, p, JournalDirectory(j.reference.owner));
      SubtreeAt(Image(p), Runs(), place);
    }
  }

  lemma RunsPlace(owner: string)
    ensures Under(Runs(), Under(owner, JournalPath())) == JournalDirectory(owner)
  {
  }

  /** Custody of the copy is custody of the source. */
  lemma CopyCustody(c: Context, runs: Tree, name: string, run: Run)
    requires WellFormed(runs) && Observable(c, runs, name, run)
    ensures SchedulerCustody(c, name, Subtree(runs, name), DeliveredJournal(runs, run))
  {
    hide Subtree, RunValid, Inventoried, Collected, RunInventory, JournalObserved, ControlLayout, Trimmed, SourceJournal,
      ReferencePath, JournalPath, SchedulerStateName, SiblingJournal, ReferenceTo, Paths, WellFormed;
    SourceCustody(c, runs, name, run);
    RunPath(c, runs, name, run, ReferencePath());
    if run.journal.Some? && SchedulerStateName() in Subtree(runs, name) {
      SourceSibling(c, runs, name, run);
      StateUntrimmed(c, runs, name, run);
    }
  }

  /** A run that keeps scheduler state passes the cross-artifact checks on its copy as it does at the source. */
  lemma StateCopyPasses(c: Context, runs: Tree, name: string, run: Run)
    requires WellFormed(runs) && Observable(c, runs, name, run)
    requires SchedulerStateName() in Subtree(runs, name) || run.journal.None?
    ensures c.semantic(run.manifest, Subtree(runs, name), DeliveredJournal(runs, run))
  {
    hide Subtree, Inventoried, Collected, RunInventory, JournalObserved, ControlLayout, Trimmed, SourceJournal,
      ReferencePath, JournalPath, SchedulerStateName, SchedulerCustody, Paths, WellFormed, ManifestExact, Listing,
      RunManifestName, PublicSubsetName, TotalSize;
    RunPath(c, runs, name, run, ReferencePath());
    if run.journal.Some? {
      SourceSibling(c, runs, name, run);
      StateUntrimmed(c, runs, name, run);
    }
  }

  lemma ImageRunValid(c: Context, runs: Tree, name: string, run: Run, p: Payload)
    requires Shippable(c, runs, name, run) && Payloads(run, p)
    ensures RunValid(c, Subtree(Image(p), Runs()), name, run.manifest) <==>
              c.semantic(run.manifest, Subtree(runs, name), DeliveredJournal(runs, run))
    ensures Subtree(Subtree(Image(p), Runs()), name) == Subtree(runs, name)
  {
    hide Image, NodeAt, Runs, WellFormed, Sound, DeliveryDirectories, Inventoried, JournalObserved,
      DeliveryArtifacts, Dependencies, Collected, Subtree, RunInventory, DeliveredJournal, SiblingJournal, ReferencePath,
      Listing, ManifestExact, Under, RunManifestName, PublicSubsetName, Paths, SchedulerCustody;
    ImageSibling(c, runs, name, run, p);
    CopyCustody(c, runs, name, run);
    ImageRun(c, runs, name, run, p);
    SubtreeTwice(Image(p), Runs(), name);
    ImageFrame(c, runs, name, run, p, RunDirectory(name));
    SubtreeAt(Image(p), Runs(), name);
  }

  lemma ImageInventory(c: Context, runs: Tree, name: string, run: Run, p: Payload)
    requires Shippable(c, runs, name, run) && Payloads(run, p)
    ensures SortBindings(WithDependencies(PrefixAll(run.inventory, p.primaryRunDirectory), p.dependencies)) == p.artifacts
  {
    hide Observable, WellFormed, Sound, Dependencies, SortBindings, PrefixAll, BindingsOf, RunDirectory;
    JournalDependency(c, runs, name, run);
    var own := PrefixAll(run.inventory, p.primaryRunDirectory);
    if p.dependencies != [] {
      assert p.dependencies[..0] == [];
      assert WithDependencies(own, p.dependencies) == own + p.dependencies[0].artifacts;
    }
  }

  lemma SealedPayload(c: Context, runs: Tree, name: string, run: Run)
    requires Shippable(c, runs, name, run)
    ensures BindingsOf(DeliveryArtifacts(run), Under(RunDirectory(run.name), RunManifestName())) != []
    ensures Payloads(run, Seal(run).payload)
    ensures DescribesRun(Seal(run).payload, run.manifest, run.inventory)
  {
    hide Observable, WellFormed, Sound, Dependencies, SortBindings, BindingsOf, RunDirectory, DeliveryArtifacts,
      DeliveryDirectories, TotalSize, CountClass, Observed, Under, RunManifestName, Paths;
    JournalDependency(c, runs, name, run);
    SealMeetsValidators(c.rules, run);
    assert RunManifestName() in Paths(run.inventory) by { ManifestBound(c, run); }
    OwnBinding(c.rules, run, RunManifestName());
  }

  lemma ManifestBound(c: Context, run: Run)
    requires Observed(c.rules, run)
    ensures RunManifestName() in Paths(run.inventory)
  {
  }

  /** The contents of the image pass exactly when the cross-artifact checks do. */
  lemma ImageContents(c: Context, runs: Tree, name: string, run: Run)
    requires SoundContext(c) && Shippable(c, runs, name, run) && Deliverable(c.rules, run)
    requires BindingsOf(DeliveryArtifacts(run), Under(RunDirectory(run.name), RunManifestName())) != []
    requires c.semantic(run.manifest, Subtree(runs, name), DeliveredJournal(runs, run))
    ensures ContentsMatch(c, Image(Seal(run).payload), Seal(run).payload, run.manifest)
  {
    hide Image, NodeAt, Runs, WellFormed, Sound, DeliveryDirectories, Inventoried, JournalObserved,
      DeliveryArtifacts, Dependencies, Collected, Subtree, RunInventory, DeliveredJournal, RunValid, RunsLayout,
      SoundContext, Deliverable, Seal, DescribesRun, SortBindings, JournalMatches, BindingsOf, Under, WithDependencies,
      PrefixAll, ReferencePath, Paths;
    var p := Seal(run).payload;
    SealedPayload(c, runs, name, run);
    ImageRunValid(c, runs, name, run, p);
    ImageLayout(c, runs, name, run, p);
    ImageInventoried(c, runs, name, run, p);
    ImageInventory(c, runs, name, run, p);
    forall i | 0 <= i < |p.dependencies| ensures JournalMatches(c, Image(p), p.dependencies[i]) {
      ImageMatchesJournal(c, runs, name, run, p, i);
    }
  }

  // ---------------------------------------------------------------- files beside the runs directory

  lemma FlatBelow(q: string, f: string)
    requires IsName(f) && q != f
    ensures !IsBelow(q, f)
  {
    if IsBelow(q, f) { SplitAt(q, f); }
  }

  lemma JournalNotFlat(owner: string, f: string)
    requires IsName(f)
    ensures JournalDirectory(owner) != f && RunDirectory(owner) != f && Under(RunDirectory(owner), "private") != f
  {
    FrameSlashes(owner);
    assert JournalDirectory(owner)[|Runs()|] == '/';
  }

  lemma BesideLayout(c: Context, tree: Tree, p: Payload, f: string, content: Bytes)
    requires IsName(f) && f !in tree && f != Runs()
    ensures RunsLayout(c, JournalManifest.WithFile(tree, f, content), p) <==> RunsLayout(c, tree, p)
  {
    hide Listing, IsChild, RunDirectory, Under, Child, Runs;
    var t := JournalManifest.WithFile(tree, f, content);
    ChildName("", f);
    assert Child("", f) == f by { FlatChild(f); }
    FixedNames("");
    JournalManifest.OtherListing(tree, "", f, content, Runs());
    forall owner ensures OwnerLayout(c, t, owner) <==> OwnerLayout(c, tree, owner) {
      FixedNames(owner);
      JournalManifest.OtherListing(tree, "", f, content, RunDirectory(owner));
      JournalManifest.OtherListing(tree, "", f, content, Under(RunDirectory(owner), "private"));
      JournalNotFlat(owner, f);
    }
  }

  lemma FlatChild(f: string)
    ensures Child("", f) == f
  {
  }

  lemma BesideJournal(c: Context, tree: Tree, d: Dependency, f: string, content: Bytes)
    requires IsName(f) && f !in tree && d.journalDirectory == JournalDirectory(d.reference.owner)
    ensures JournalMatches(c, JournalManifest.WithFile(tree, f, content), d) <==> JournalMatches(c, tree, d)
  {
    hide Collected, Inventoried, Subtree, IsBelow;
    JournalNotFlat(d.reference.owner, f);
    FlatBelow(d.journalDirectory, f);
    JournalManifest.OtherSubtree(tree, f, content, d.journalDirectory);
  }

  /** One more file beside the runs directory changes no check on the contents. */
  lemma BesideUnseen(c: Context, tree: Tree, p: Payload, m: Manifest, f: string, content: Bytes)
    requires ContentsMatch(c, tree, p, m) && Placed(p)
    requires IsName(f) && f !in tree && f != Runs() && c.safe(f) && |f| <= MAX_PATH_LENGTH
    ensures ContentsMatch(c, JournalManifest.WithFile(tree, f, content), p, m)
  {
    hide Subtree, RunValid, RunInventory, DescribesRun, RunsLayout, Inventoried, JournalMatches, SortBindings,
      IsBelow, IsChild, Runs, JournalDirectory;
    var t := JournalManifest.WithFile(tree, f, content);
    FlatBelow(Runs(), f);
    JournalManifest.OtherSubtree(tree, f, content, Runs());
    BesideLayout(c, tree, p, f, content);
    ChildName("", f);
    FlatChild(f);
    JournalManifest.StaysInventoried(c, tree, "", f, content, p.directories);
    forall i | 0 <= i < |p.dependencies| ensures JournalMatches(c, t, p.dependencies[i]) {
      BesideJournal(c, tree, p.dependencies[i], f, content);
    }
  }

  lemma TopNames()
    ensures IsName(DescriptorName()) && IsName(MarkerName())
    ensures DescriptorName() != Runs() && MarkerName() != Runs() && MarkerName() != DescriptorName()
    ensures |DescriptorName()| <= MAX_PATH_LENGTH
    ensures |MarkerName()| <= MAX_PATH_LENGTH
  {
    assert MarkerName()[0] != DescriptorName()[0] && MarkerName()[0] != Runs()[0] && DescriptorName()[0] != Runs()[0];
  }

  lemma PayloadPlaced(c: Context, runs: Tree, name: string, run: Run, p: Payload)
    requires Shippable(c, runs, name, run) && Payloads(run, p)
    ensures Placed(p)
  {
    hide Observable, Sound, WellFormed, DeliveryArtifacts, DeliveryDirectories, BindingsOf, Dependencies, RunDirectory,
      JournalDirectory;
    JournalDependency(c, runs, name, run);
    RunNames(c, runs, name, run);
  }

  /** The image has no file beside the runs directory. */
  lemma ImageBeside(c: Context, runs: Tree, name: string, run: Run, p: Payload, f: string)
    requires Shippable(c, runs, name, run) && Payloads(run, p) && IsName(f) && f != Runs()
    ensures f !in Image(p)
  {
    hide Image, NodeAt, Observable, Sound, WellFormed, DeliveryArtifacts, DeliveryDirectories, Dependencies, Listing,
      Runs;
    ImageTop(c, runs, name, run, p);
  }

  /** The run can be delivered: its descriptor is within bounds and portable, it fits its file, and the
      cross-artifact checks pass on the copied run and journal. */
  ghost predicate Exportable(c: Context, runs: Tree, name: string, run: Run) {
    && Observable(c, runs, name, run)
    && Deliverable(c.rules, run)
    && BindingsOf(DeliveryArtifacts(run), Under(RunDirectory(run.name), RunManifestName())) != []
    && |c.encodeDescriptor(Seal(run))| <= MAX_EVIDENCE_BYTES
    && c.semantic(run.manifest, Subtree(runs, name), DeliveredJournal(runs, run))
  }

  lemma DeliveredListing(image: Tree, content: Bytes)
    requires Listing(image, "") == {Runs()}
    ensures Listing(image[DescriptorName() := File(content, 1)], "") == {DescriptorName(), Runs()}
  {
    hide DescriptorName, Runs, Listing;
    TopNames();
    var t := image[DescriptorName() := File(content, 1)];
    forall n ensures n in Listing(t, "") <==> n in {DescriptorName(), Runs()} {
      ListingMember(t, "", n);
      ListingMember(image, "", n);
      FlatChild(n);
    }
  }

  /** The delivered image of an exportable run is a directory tree that verification accepts. */
  lemma DeliveredAccepted(c: Context, runs: Tree, name: string, run: Run)
    requires WellFormed(runs) && SoundContext(c) && Exportable(c, runs, name, run) && RoundTrips(c, Seal(run))
    ensures WellFormed(Delivered(c, Seal(run)))
    ensures Accepts(c, Delivered(c, Seal(run)), Seal(run))
  {
    hide Image, NodeAt, Runs, WellFormed, Sound, DeliveryDirectories, Deliverable,
      DeliveryArtifacts, Dependencies, Subtree, DeliveredJournal, Observable, ContentsMatch, DescriptorExact,
      Seal, BindingsOf, Under, DescriptorName, MarkerName, IsChild, Listing, PayloadExact, Placed, Observed;
    var d := Seal(run);
    var p := d.payload;
    var image := Image(p);
    var content := c.encodeDescriptor(d);
    SealedPayload(c, runs, name, run);
    JournalDependency(c, runs, name, run);
    SealMeetsValidators(c.rules, run);
    ImageContents(c, runs, name, run);
    PayloadPlaced(c, runs, name, run, p);
    TopNames();
    ImageTop(c, runs, name, run, p);
    ImageBeside(c, runs, name, run, p, DescriptorName());
    ImageWellFormed(c, runs, name, run, p);
    BesideUnseen(c, image, p, run.manifest, DescriptorName(), content);
    DeliveredListing(image, content);
    RootOfImage(p);
    ChildName("", DescriptorName());
    FlatChild(DescriptorName());
    JournalManifest.StaysWellFormed(image, "", DescriptorName(), content);
    assert Delivered(c, d) == JournalManifest.WithFile(image, DescriptorName(), content);
    ImageFrame(c, runs, name, run, p, Runs());
  }
}
