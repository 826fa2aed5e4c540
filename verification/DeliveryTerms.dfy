/** The rules of a delivery in plain terms: what collection, the descriptor's validators and the observation of a
    run accept, said of paths, files and directories alone. */
module DeliveryTerms {
  import opened Text
  import opened Trees
  import opened Delivery
  import opened DeliveryVerification
  import opened DeliveryImage
  import opened SourceRun
  import opened DeliveryFigures
  import PortablePaths
  import Names
  import DirectoryInventory
  import ForensicExport

  // ---------------------------------------------------------------- collection

  /** The bindings list these files, in order, each with its digest and size. */
  ghost predicate Lists(tree: Tree, files: set<string>, bs: seq<Binding>) {
    && Ascending(Paths(bs)) && (forall k :: k in Paths(bs) <==> k in files)
    && forall b :: b in bs ==>
         b.path in tree && tree[b.path].File? && b.sha256 == FileHash(tree[b.path].content) && b.size == |tree[b.path].content|
  }

  /** Collection returns these bindings exactly when every entry but the root and a file or directory of the run
      manifest's name at the top is a directory or an unshared file that may be collected, and they list all files
      but that one, between 1 and 100,000 of at most four gibibytes. */
  lemma CollectedMeans(c: Context, tree: Tree, bs: seq<Binding>)
    requires WellFormed(tree)
    ensures Collected(c, tree, bs) <==>
              && (forall k :: k in tree && k != "" && k != "run-evidence-manifest.json" ==>
                    && (tree[k] == Directory || (tree[k].File? && tree[k].links == 1))
                    && c.collectable(k, tree[k] == Directory))
              && Lists(tree, Files(tree) - {"run-evidence-manifest.json"}, bs)
              && 1 <= |bs| <= 100_000 && TotalSize(bs) <= 4_294_967_296
  {
    hide WellFormed, Ascending, TotalSize;
    ManifestText();
    if Collected(c, tree, bs) {
      forall k ensures k in Paths(bs) <==> k in Files(tree) - {"run-evidence-manifest.json"} { CollectedPath(c, tree, bs, k); }
      forall b | b in bs
        ensures b.path in tree && tree[b.path].File? && b.sha256 == FileHash(tree[b.path].content) && b.size == |tree[b.path].content|
      {
        assert b in Elements(bs);
      }
    }
    if Lists(tree, Files(tree) - {"run-evidence-manifest.json"}, bs) {
      forall b ensures b in Elements(bs) <==> b in FileBindings(tree) {
        PathMembers(bs, b.path);
        if b in FileBindings(tree) {
          var k :| k in tree && Collects(tree, k) && b == Bind(k, tree[k]);
          PathMembers(bs, k);
          var x :| x in bs && x.path == k;
        }
        if b in bs { assert b.path in Files(tree) - {"run-evidence-manifest.json"}; }
      }
    }
  }

  lemma ManifestText()
    ensures RunManifestName() == "run-evidence-manifest.json" != ""
  {
  }

  // ---------------------------------------------------------------- the descriptor

  ghost predicate BindsOnce(bs: seq<Binding>, k: string, sha256: Hash) {
    exists b :: b in bs && b.path == k && b.sha256 == sha256
  }

  lemma OneBinding(bs: seq<Binding>, k: string, sha256: Hash)
    requires Ascending(Paths(bs))
    ensures |BindingsOf(bs, k)| == 1 && BindingsOf(bs, k)[0].sha256 == sha256 <==> BindsOnce(bs, k, sha256)
  {
    hide Ascending;
    BoundOf(bs, k);
    AscendingDistinct(Paths(bs));
    BindingsCount(bs, k);
    if BindsOnce(bs, k, sha256) {
      var b :| b in bs && b.path == k && b.sha256 == sha256;
      PathMembers(bs, k);
      SamePath(bs, BindingsOf(bs, k)[0], b);
    }
    if |BindingsOf(bs, k)| == 1 { assert BindingsOf(bs, k)[0] in BindingsOf(bs, k); }
  }

  lemma {:induction false} BindingsCount(bs: seq<Binding>, k: string)
    requires NoDuplicates(Paths(bs))
    ensures |BindingsOf(bs, k)| == if k in Paths(bs) then 1 else 0
    decreases |bs|
  {
    if bs != [] {
      assert Paths(bs) == [bs[0].path] + Paths(bs[1..]) && Paths(bs)[1..] == Paths(bs[1..]);
      FirstOnce(Paths(bs));
      BindingsCount(bs[1..], k);
    }
  }

  /** One retained journal: its place, its files below that place in order, its directories with the two above, and
      its figures. */
  ghost predicate JournalSaid(e: Dependency) {
    var owner := "runs/" + e.reference.owner;
    var at := owner + "/private/scheduler-journal";
    && e.journalDirectory == at && |at| <= 4_096 && 1 <= |e.referencePath| <= 4_096
    && Ascending(Paths(e.artifacts)) && (forall k :: k in Paths(e.artifacts) ==> StartsWith(k, at + "/"))
    && Ascending(e.directories) && owner in e.directories && owner + "/private" in e.directories && at in e.directories
    && (forall k :: k in e.directories ==> k == owner || k == owner + "/private" || k == at || StartsWith(k, at + "/"))
    && e.artifactCount == |e.artifacts| && 1 <= e.artifactCount <= 200_001
    && e.artifactTotalBytes == TotalSize(e.artifacts) && 1 <= e.artifactTotalBytes <= 8_689_934_592
    && e.artifactInventorySha256 == InventoryHash(e.artifacts)
    && e.directoryCount == |e.directories| && 3 <= e.directoryCount <= 200_001
    && e.directoryInventorySha256 == DirectoriesHash(e.directories)
  }

  lemma PrivatePlace(x: string)
    ensures Under(RunDirectory(x), "private") == "runs/" + x + "/private"
  {
    hide RunDirectory;
    RunPlace(x);
    assert "runs/" + x + "/" + "private" == "runs/" + x + "/private";
  }

  lemma JournalMeans(e: Dependency)
    ensures DependencyExact(e) <==> JournalSaid(e)
  {
    hide Ascending, SortedSet, TotalSize, RunDirectory, JournalDirectory, Paths, Under, StartsWith;
    var o := e.reference.owner;
    FixedPlaces(o);
    PrivatePlace(o);
    IsSortedSet(Paths(e.artifacts));
    IsSortedSet(e.directories);
    PathsCount(e.artifacts);
    assert |"runs/" + o + "/private/scheduler-journal"| >= 1;
    PathsEach(e.artifacts, JournalDirectory(o) + "/");
    if forall k :: k in e.directories ==>
         k == RunDirectory(o) || k == Under(RunDirectory(o), "private") || k == JournalDirectory(o)
         || StartsWith(k, JournalDirectory(o) + "/") {
      forall i | 0 <= i < |e.directories|
        ensures || e.directories[i] == JournalDirectory(o) || StartsWith(e.directories[i], JournalDirectory(o) + "/")
                || e.directories[i] == RunDirectory(o) || e.directories[i] == Under(RunDirectory(o), "private")
      {
        assert e.directories[i] in e.directories;
      }
    }
  }

  lemma PathsEach(bs: seq<Binding>, start: string)
    ensures (forall i :: 0 <= i < |bs| ==> StartsWith(bs[i].path, start)) <==> forall k :: k in Paths(bs) ==> StartsWith(k, start)
  {
    hide StartsWith;
    assert forall i :: 0 <= i < |bs| ==> Paths(bs)[i] == bs[i].path;
    if forall k :: k in Paths(bs) ==> StartsWith(k, start) {
      forall i | 0 <= i < |bs| ensures StartsWith(bs[i].path, start) { assert Paths(bs)[i] in Paths(bs); }
    }
  }

  /** The whole delivery: a safe run at its place with its manifest, everything in order and added up, at most one
      journal of another run that the run refers to, and nothing outside the two. */
  ghost predicate DeliverySaid(rules: Rules, p: Payload) {
    var x := p.sourceRunDirectoryName;
    var run := "runs/" + x;
    && rules.safeRunName(x) && 1 <= |x| <= 128 && 1 <= |p.sourceRunId| <= 160
    && p.primaryRunDirectory == run && p.sourceManifestPath == run + "/run-evidence-manifest.json"
    && BindsOnce(p.artifacts, p.sourceManifestPath, p.sourceManifestFileSha256)
    && Ascending(Paths(p.artifacts)) && Ascending(p.directories) && "runs" in p.directories && run in p.directories
    && p.artifactCount == |p.artifacts| && 2 <= p.artifactCount <= 200_001
    && p.artifactTotalBytes == TotalSize(p.artifacts) && 1 <= p.artifactTotalBytes <= 8_689_934_592
    && p.artifactInventorySha256 == InventoryHash(p.artifacts)
    && p.directoryCount == |p.directories| && 2 <= p.directoryCount <= 200_001
    && p.directoryInventorySha256 == DirectoriesHash(p.directories)
    && PortablePaths.Portable(rules.tables, ["forensic-delivery.json"] + Paths(p.artifacts), p.directories)
    && p.privateArtifactCount == |OfClass(p.artifacts, "private")| && p.logArtifactCount == |OfClass(p.artifacts, "logs")|
    && (p.privateEvidenceIncluded <==> p.privateArtifactCount > 0) && (p.logsIncluded <==> p.logArtifactCount > 0)
    && |p.dependencies| <= 1
    && (forall e :: e in p.dependencies ==>
          && JournalSaid(e) && e.reference.consumer == x
          && e.referencePath == run + "/private/scheduler-journal-reference.json"
          && BindsOnce(p.artifacts, e.referencePath, e.referenceFileSha256)
          && (forall k :: k in Paths(e.artifacts) ==> k in Paths(p.artifacts))
          && (forall k :: k in e.directories ==> k in p.directories))
    && (exists k :: k in Paths(p.artifacts) && OutsideJournals(p, k))
    && (forall k :: k in Paths(p.artifacts) && OutsideJournals(p, k) ==> StartsWith(k, run + "/"))
  }

  ghost predicate OutsideJournals(p: Payload, k: string) {
    forall e :: e in p.dependencies ==> k !in Paths(e.artifacts)
  }

  lemma OutsideMeans(p: Payload, k: string)
    ensures !InDependency(p, k) <==> OutsideJournals(p, k)
  {
    hide Paths;
    assert forall i :: 0 <= i < |p.dependencies| ==> p.dependencies[i] in p.dependencies;
  }

  lemma DependencyMeans(p: Payload, e: Dependency)
    requires p.primaryRunDirectory == "runs/" + p.sourceRunDirectoryName && Ascending(Paths(p.artifacts))
    ensures DependencyBound(p, e) <==>
              && e.reference.consumer == p.sourceRunDirectoryName
              && e.referencePath == "runs/" + p.sourceRunDirectoryName + "/private/scheduler-journal-reference.json"
              && BindsOnce(p.artifacts, e.referencePath, e.referenceFileSha256)
  {
    hide BindingsOf, Ascending, Under, BindsOnce;
    OneBinding(p.artifacts, e.referencePath, e.referenceFileSha256);
    ReferencePlace("runs/" + p.sourceRunDirectoryName);
  }

  lemma ClassCounts(bs: seq<Binding>)
    requires Ascending(Paths(bs))
    ensures CountClass(bs, "private") == |OfClass(bs, "private")| <= |bs| && CountClass(bs, "logs") == |OfClass(bs, "logs")| <= |bs|
  {
    hide Ascending, CountClass, OfClass;
    AscendingDistinct(Paths(bs));
    CountIs(bs, "private");
    CountIs(bs, "logs");
    CountClassBound(bs, "private");
    CountClassBound(bs, "logs");
  }

  /** The validators accept a descriptor exactly when it says all of this and carries the hash of its payload. */
  lemma DescriptorMeans(rules: Rules, d: Descriptor)
    ensures DescriptorExact(rules, d) <==> DeliverySaid(rules, d.payload) && d.descriptorSha256 == PayloadHash(d.payload)
  {
    hide Ascending, SortedSet, TotalSize, RunDirectory, Paths, Under, StartsWith, BindingsOf, BindsOnce, CountClass, OfClass,
      PortablePaths.Portable, DependencyExact, JournalSaid, InDependency, OutsideJournals, DependencyBound, RunManifestName,
      DescriptorName, Runs;
    var p := d.payload;
    var x := p.sourceRunDirectoryName;
    DescriptorTexts(x);
    IsSortedSet(Paths(p.artifacts));
    IsSortedSet(p.directories);
    if Ascending(Paths(p.artifacts)) {
      OneBinding(p.artifacts, p.sourceManifestPath, p.sourceManifestFileSha256);
      ClassCounts(p.artifacts);
      if p.primaryRunDirectory == "runs/" + x {
        forall e ensures DependencyBound(p, e) <==>
          && e.reference.consumer == x
          && e.referencePath == "runs/" + x + "/private/scheduler-journal-reference.json"
          && BindsOnce(p.artifacts, e.referencePath, e.referenceFileSha256)
        {
          DependencyMeans(p, e);
        }
      }
    }
    forall e ensures DependencyExact(e) <==> JournalSaid(e) { JournalMeans(e); }
    forall k ensures !InDependency(p, k) <==> OutsideJournals(p, k) { OutsideMeans(p, k); }
    assert forall i :: 0 <= i < |p.dependencies| ==> p.dependencies[i] in p.dependencies;
    LongestPlaces(x);
  }

  lemma DescriptorTexts(x: string)
    ensures RunDirectory(x) == "runs/" + x && Runs() == "runs" && DescriptorName() == "forensic-delivery.json"
    ensures Under(RunDirectory(x), RunManifestName()) == "runs/" + x + "/run-evidence-manifest.json"
  {
    hide RunDirectory, Under;
    FixedPlaces(x);
  }

  lemma LongestPlaces(x: string)
    ensures |x| <= 128 ==> 1 <= |"runs/" + x| <= 4_096 && 1 <= |"runs/" + x + "/run-evidence-manifest.json"| <= 4_096
  {
  }

  // ---------------------------------------------------------------- a complete run

  /** With scheduler state, the journal of a run is in it, or beside it under a reference to another run, never both,
      and has the control layout. */
  ghost predicate CustodySaid(c: Context, runs: Tree, x: string) {
    var own, reference := x + "/private/scheduler-journal", x + "/private/scheduler-journal-reference.json";
    x + "/scheduler-state.json" in runs ==>
      && (own in runs <==> reference !in runs)
      && (own in runs ==> ControlsAt(runs, own))
      && (reference in runs ==>
            && runs[reference].File?
            && var r := c.parseReference(runs[reference].content);
               && r.Some? && r.value.consumer == x != r.value.owner && IsName(r.value.owner) && |r.value.owner| <= 128
               && ControlsAt(runs, r.value.owner + "/private/scheduler-journal"))
  }

  lemma LayoutMeans(tree: Tree, at: string)
    ensures at in tree && tree[at] == Directory && ControlLayout(Subtree(tree, at)) <==> ControlsAt(tree, at)
  {
    hide ControlLayout, ControlsAt, Subtree;
    if at in tree && tree[at] == Directory && ControlLayout(Subtree(tree, at)) { LayoutIsControls(tree, at); }
    if ControlsAt(tree, at) { ControlsAreLayout(tree, at); }
  }

  lemma ControlsAreLayout(tree: Tree, at: string)
    requires ControlsAt(tree, at)
    ensures at in tree && tree[at] == Directory && ControlLayout(Subtree(tree, at))
  {
    hide Subtree, Under, ControlFiles, ControlDirectories, TerminalAuthorityName, Listing, IsName;
    var journal := Subtree(tree, at);
    ControlTexts();
    ControlsAreNames();
    forall n | n != ""
      ensures n in Listing(journal, "") <==> IsName(n) && Under(at, n) in tree
      ensures n in journal <==> Under(at, n) in tree
      ensures n in journal ==> journal[n] == tree[Under(at, n)]
    {
      ListingMember(journal, "", n);
      SubtreeAt(tree, at, n);
    }
    TerminalListed(journal);
    ListingNames(journal);
    var observed := Listing(journal, "");
    forall n ensures n in observed - {TerminalAuthorityName()} <==> n in ControlFiles() + ControlDirectories() {
    }
    assert observed - {TerminalAuthorityName()} == ControlFiles() + ControlDirectories();
  }

  lemma ListingNames(journal: Tree)
    ensures "" !in Listing(journal, "") && forall n :: n in Listing(journal, "") ==> IsName(n)
  {
    hide Listing;
    forall n | n in Listing(journal, "") ensures IsName(n) { ListingMember(journal, "", n); }
    ListingMember(journal, "", "");
  }

  lemma ControlsAreNames()
    ensures forall n :: n in ControlFiles() + ControlDirectories() ==> IsName(n) && n != "" && n != TerminalAuthorityName()
    ensures IsName(TerminalAuthorityName())
  {
    hide ControlFiles, ControlDirectories;
    forall n | n in ControlFiles() + ControlDirectories() ensures IsName(n) && n != "" && n != TerminalAuthorityName() {
      ControlName(n);
    }
  }

  lemma ControlName(n: string)
    requires n in ControlFiles() + ControlDirectories()
    ensures IsName(n) && |n| <= 29
  {
    if n in ControlFiles() {
      assert n == ".scheduler.lock" || n == "manifest.json" || n == "analysis-input-inventory.json";
    } else {
      assert |"activations"| == 11 && |"events"| == 6 && |"pass-plans"| == 10 && |"pass-results"| == 12;
      assert |"task-outputs"| == 12 && |"task-results"| == 12 && |"provider-attempts"| == 17;
    }
  }

  /** Custody is just what a run with scheduler state must show. */
  lemma CustodyMeans(c: Context, runs: Tree, x: string)
    ensures var run := Subtree(runs, x); SchedulerCustody(c, x, run, SiblingJournal(c, runs, run)) <==> CustodySaid(c, runs, x)
  {
    hide Subtree, ControlLayout, ControlsAt, Under, IsName;
    var run := Subtree(runs, x);
    ControlTexts();
    PlaceTexts();
    JournalIn(x);
    ReferencePlace(x);
    StatePlace(x);
    SubtreeAt(runs, x, SchedulerStateName());
    SubtreeAt(runs, x, JournalPath());
    SubtreeAt(runs, x, ReferencePath());
    SubtreeTwice(runs, x, JournalPath());
    LayoutMeans(runs, Under(x, JournalPath()));
    if ReferencePath() in run && run[ReferencePath()].File? && c.parseReference(run[ReferencePath()].content).Some? {
      var owner := c.parseReference(run[ReferencePath()].content).value.owner;
      JournalIn(owner);
      LayoutMeans(runs, Under(owner, JournalPath()));
    }
  }

  lemma StatePlace(x: string)
    ensures Under(x, SchedulerStateName()) == x + "/scheduler-state.json"
  {
    assert x + "/" + "scheduler-state.json" == x + "/scheduler-state.json";
  }

  lemma SubsetPlace(x: string)
    ensures Under(x, PublicSubsetName()) == x + "/public-evidence-subset-manifest.json"
  {
    hide PublicSubsetName;
    assert PublicSubsetName() == "public-evidence-subset-manifest.json" by { SubsetName(); }
    assert x + "/" + "public-evidence-subset-manifest.json" == x + "/public-evidence-subset-manifest.json";
  }

  lemma SubsetName()
    ensures PublicSubsetName() == "public-evidence-subset-manifest.json"
  {
  }

  /** A run that holds no public subset, a small manifest that lists all its other files, and its journal where it has
      to be, that passes the cross-artifact checks and whose files are within the limits of a delivery. */
  ghost predicate RunSaid(c: Context, runs: Tree, x: string, m: Manifest) {
    var k, run := x + "/run-evidence-manifest.json", Subtree(runs, x);
    && x != "" && x in runs && runs[x] == Directory && x + "/public-evidence-subset-manifest.json" !in runs
    && k in runs && runs[k].File? && runs[k].links == 1 && |runs[k].content| <= 100_000_000
    && c.parseManifest(runs[k].content) == Some(m) && 1 <= |m.runId| <= 128
    && (forall r :: r in run && r != "" && r != "run-evidence-manifest.json" ==>
          && (run[r] == Directory || (run[r].File? && run[r].links == 1))
          && c.collectable(r, run[r] == Directory))
    && Lists(run, Files(run) - {"run-evidence-manifest.json"}, m.artifacts)
    && 1 <= |m.artifacts| <= 100_000 && TotalSize(m.artifacts) <= 4_294_967_296
    && CustodySaid(c, runs, x) && c.semantic(m, run, SiblingJournal(c, runs, run))
    && TotalSize(m.artifacts) + |runs[k].content| <= 8_689_934_592
  }

  /** A run is complete exactly when it says all of this. */
  lemma RunMeans(c: Context, runs: Tree, x: string, m: Manifest)
    requires WellFormed(runs)
    ensures RunValid(c, runs, x, m) <==> RunSaid(c, runs, x, m)
  {
    hide Subtree, Listing, ControlsAt, IsName, PublicSubsetName, RunManifestName, SchedulerCustody, SiblingJournal, TotalSize,
      Paths, WellFormed, Ascending, SortedSet, CustodySaid, Lists, Collected, Under, SortBindings, Files;
    var run := Subtree(runs, x);
    if x != "" && x in runs && runs[x] == Directory {
      ManifestText();
      SubtreeWellFormed(runs, x);
      SubsetIsName();
      ListingMember(run, "", PublicSubsetName());
      SubtreeAt(runs, x, PublicSubsetName());
      SubtreeAt(runs, x, RunManifestName());
      ManifestPlace(x);
      SubsetPlace(x);
      CollectedMeans(c, run, m.artifacts);
      CustodyMeans(c, runs, x);
      if RunManifestName() in run && run[RunManifestName()].File? { InventorySize(m, run); }
      if Lists(run, Files(run) - {"run-evidence-manifest.json"}, m.artifacts) { ListsManifest(run, m.artifacts); }
    }
  }

  lemma InventorySize(m: Manifest, run: Tree)
    requires RunManifestName() in run && run[RunManifestName()].File?
    ensures |SortBindings(m.artifacts + [Bind(RunManifestName(), run[RunManifestName()])])| == |m.artifacts| + 1
    ensures TotalSize(SortBindings(m.artifacts + [Bind(RunManifestName(), run[RunManifestName()])])) ==
            TotalSize(m.artifacts) + |run[RunManifestName()].content|
  {
    hide SortBindings, TotalSize;
    var own := Bind(RunManifestName(), run[RunManifestName()]);
    SortKeepsCount(m.artifacts + [own]);
    TotalSizeAppend(m.artifacts, [own]);
    OneSize(own);
  }

  lemma ListsManifest(run: Tree, bs: seq<Binding>)
    requires Lists(run, Files(run) - {"run-evidence-manifest.json"}, bs)
    ensures Paths(bs) == SortedSet(Paths(bs)) && RunManifestName() !in Paths(bs)
  {
    hide Ascending, SortedSet, Paths, Files;
    ManifestText();
    IsSortedSet(Paths(bs));
  }

  /** Its inventory lists every file. */
  lemma InventoryLists(c: Context, runs: Tree, x: string, m: Manifest)
    requires WellFormed(runs) && RunValid(c, runs, x, m)
    ensures BoundedFile(Subtree(runs, x), RunManifestName())
    ensures var run := Subtree(runs, x); Lists(run, Files(run), RunInventory(m, run))
  {
    hide Subtree, RunInventory, ManifestExact, CrossChecked, Listing, TotalSize, WellFormed, Ascending, Collected, RunManifestName,
      PublicSubsetName;
    var run := Subtree(runs, x);
    InventoryIsExact(c, runs, x, m);
    var bs := RunInventory(m, run);
    forall b | b in bs
      ensures b.path in run && run[b.path].File? && b.sha256 == FileHash(run[b.path].content) && b.size == |run[b.path].content|
    {
      assert b in Elements(bs);
    }
    forall k ensures k in Paths(bs) <==> k in Files(run) {
      PathMembers(bs, k);
      if k in Files(run) {
        var b := Bind(k, run[k]);
        assert b in FileBindings(run) + {Bind(RunManifestName(), run[RunManifestName()])} by {
          if k != RunManifestName() { assert Collects(run, k); }
        }
        assert b in Elements(bs);
      }
    }
  }

  // ---------------------------------------------------------------- what the export observes

  /** The reference of a run and the journal it leads to, as observed. */
  ghost predicate JournalSeen(c: Context, runs: Tree, name: string, j: Journal) {
    var reference, owner := name + "/private/scheduler-journal-reference.json", j.reference.owner;
    var at := owner + "/private/scheduler-journal";
    && reference in runs && runs[reference].File? && runs[reference].links == 1 && |runs[reference].content| <= 100_000_000
    && c.parseReference(runs[reference].content) == Some(j.reference)
    && j.reference.consumer == name != owner && IsName(owner) && |owner| <= 128 && c.safe(owner)
    && at in runs && runs[at] == Directory
    && var journal := Subtree(runs, at);
       && Lists(journal, Files(journal) - {"run-evidence-manifest.json"}, j.artifacts) && j.artifacts != []
       && Ascending(j.directories) && (forall k :: k in j.directories <==> k in Directories(journal))
  }

  /** What the export observes of a run: all its files with digests and sizes, all its directories, and the journal of
      the other run that it refers to, exactly when it does. */
  lemma ObservedSays(c: Context, runs: Tree, name: string, run: Run)
    requires WellFormed(runs) && Observable(c, runs, name, run)
    ensures run.name == name && c.rules.safeRunName(name)
    ensures var t := Subtree(runs, name);
            && Lists(t, Files(t), run.inventory)
            && Ascending(run.directories) && (forall k :: k in run.directories <==> k in Directories(t))
            && (run.journal.Some? <==> "private/scheduler-journal-reference.json" in Files(t))
            && (run.journal.Some? ==> JournalSeen(c, runs, name, run.journal.value))
    ensures RunValid(c, runs, name, run.manifest)
  {
    hide Subtree, RunInventory, WellFormed, Ascending, RunValid, JournalObserved, JournalSeen, Lists, DirectoryInventory.Acceptable,
      Paths, Listing, BoundedFile, RunManifestName, PublicSubsetName;
    var t := Subtree(runs, name);
    InventoryLists(c, runs, name, run.manifest);
    PlaceTexts();
    ListsPaths(t, Files(t), run.inventory);
    assert forall k :: k in run.directories <==> k in Elements(run.directories);
    if run.journal.Some? { JournalSaw(c, runs, name, run.journal.value); }
  }

  lemma ListsPaths(tree: Tree, files: set<string>, bs: seq<Binding>)
    requires Lists(tree, files, bs)
    ensures forall k :: k in Paths(bs) <==> k in files
  {
    hide Ascending, Paths;
  }

  lemma JournalSaw(c: Context, runs: Tree, name: string, j: Journal)
    requires WellFormed(runs) && JournalObserved(c, runs, name, j)
    ensures JournalSeen(c, runs, name, j)
  {
    hide Subtree, WellFormed, Ascending, Lists, DirectoryInventory.Acceptable, Collected, IsName, Under, Directories, TotalSize;
    PlaceTexts();
    ReferencePlace(name);
    JournalIn(j.reference.owner);
    PlaceNotEmpty(j.reference.owner);
    SubtreeAt(runs, name, ReferencePath());
    var journal := Subtree(runs, JournalPlace(j.reference));
    SubtreeWellFormed(runs, JournalPlace(j.reference));
    CollectedMeans(c, journal, j.artifacts);
    assert forall k :: k in j.directories <==> k in Elements(j.directories);
  }

  // ---------------------------------------------------------------- directories and paths

  /** A directory inventory exists exactly for trees of directories and unshared files with safe names, paths of at
      most 4,096 characters and at most 200,001 directories, and is then their sorted list. */
  lemma InventoriedMeans(c: Context, tree: Tree, ds: seq<string>)
    requires WellFormed(tree)
    ensures Inventoried(c, tree, ds) <==>
              && (forall k :: k in tree && k != "" ==>
                    && (tree[k] == Directory || (tree[k].File? && tree[k].links == 1)) && |k| <= 4_096
                    && forall p :: p in tree && tree[p] == Directory && IsChild(p, k) ==> c.safe(NameIn(p, k)))
              && |Directories(tree)| <= 200_001
              && Ascending(ds) && forall k :: k in ds <==> k in Directories(tree)
  {
    hide Ascending, IsChild, Directories;
    assert forall k :: k in ds <==> k in Elements(ds);
    if forall p :: p in tree && tree[p] == Directory ==> DirectoryInventory.SafeBelow(c.safe, tree, p) {
      forall k | k in tree && k != ""
        ensures (tree[k] == Directory || (tree[k].File? && tree[k].links == 1)) && |k| <= 4_096
        ensures forall p :: p in tree && tree[p] == Directory && IsChild(p, k) ==> c.safe(NameIn(p, k))
      {
        assert HasParent(tree, k);
        forall p | p in tree && tree[p] == Directory && IsChild(p, k)
          ensures DirectoryInventory.SafeEntry(c.safe, tree, p, k)
        {
          assert DirectoryInventory.SafeBelow(c.safe, tree, p);
        }
      }
    }
    if forall k :: k in tree && k != "" ==>
         && (tree[k] == Directory || (tree[k].File? && tree[k].links == 1)) && |k| <= 4_096
         && forall p :: p in tree && tree[p] == Directory && IsChild(p, k) ==> c.safe(NameIn(p, k)) {
      forall p, k | p in tree && tree[p] == Directory && k in tree && IsChild(p, k)
        ensures DirectoryInventory.SafeEntry(c.safe, tree, p, k)
      {
        NameChild(p, k);
      }
    }
  }

  /** Paths are portable exactly when each is its own normal form of at most 4,096 characters and no two prefixes of
      them fold together unless they are the same text of the same kind. */
  lemma PortableMeans(t: Names.Tables, paths: seq<string>, directories: seq<string>)
    ensures PortablePaths.Portable(t, paths, directories) <==>
              && (forall k :: k in paths || k in directories ==>
                    |k| <= 4_096 && t.normalize(k) == Some(k) && t.nfc(k) == k)
              && (var all := PortablePaths.Registered(paths, directories);
                  forall p, q :: p in all && q in all && t.casefold(t.nfc(p.text)) == t.casefold(t.nfc(q.text)) ==> p == q)
  {
    hide PortablePaths.Registered;
  }

  /** Empty components and dots are no parts, other names are. */
  lemma PartsSay(name: string, rest: string)
    requires '/' !in name
    ensures PortablePaths.Parts(name) == if name == "" || name == "." then [] else [name]
    ensures PortablePaths.Parts(name + "/" + rest) == PortablePaths.Parts(name) + PortablePaths.Parts(rest)
  {
    hide PortablePaths.Parts;
    ForensicExport.FlatParts(name);
    var k := name + "/" + rest;
    assert k[..|name|] == name && k[|name|] == '/' && k[|name| + 1..] == rest;
    ForensicExport.PartsSplit(k, |name|);
  }
}
