/** What a delivery says about itself, and what it holds, in terms of the source tree and of the wrapper alone. */
module DeliveryFigures {
  import opened Text
  import opened Trees
  import opened Delivery
  import opened DeliveryVerification
  import opened DeliveryImage
  import opened SourceRun
  import opened PortablePaths
  import Names
  import opened ForensicExport
  import DirectoryInventory

  // ---------------------------------------------------------------- classes of evidence paths

  /** No component is empty or a dot. */
  predicate Clean(path: string) {
    Join(Parts(path)) == path
  }

  lemma {:induction false} JoinCons(x: string, ps: seq<string>)
    requires ps != []
    ensures Join([x] + ps) == x + "/" + Join(ps)
    decreases |ps|
  {
    var n := |ps| - 1;
    var all := [x] + ps;
    assert all[..|all| - 1] == [x] + ps[..n];
    if n > 0 { JoinCons(x, ps[..n]); }
  }

  lemma {:induction false} JoinShort(path: string)
    ensures |Join(Parts(path))| <= |path|
    decreases |path|
  {
    if '/' in path {
      var i := IndexOf(path, '/');
      var rest := path[i + 1..];
      JoinShort(rest);
      if Component(path[..i]) != [] && Parts(rest) != [] { JoinCons(path[..i], Parts(rest)); }
      assert [] + Parts(rest) == Parts(rest);
    }
  }

  lemma JoinOne(x: string)
    ensures Join([x]) == x
  {
  }

  lemma StartsThenFirst(rel: string, dir: string)
    requires Clean(rel) && IsName(dir) && dir != "." && StartsWith(rel, dir + "/")
    ensures |Parts(rel)| >= 2 && Parts(rel)[0] == dir
  {
    hide Parts, Join;
    assert rel[..|dir|] == dir && rel[|dir|] == '/';
    PartsSplit(rel, |dir|);
    var rest := Parts(rel[|dir| + 1..]);
    assert [dir] + [] == [dir];
    assert Parts(rel) == [dir] + rest;
    JoinOne(dir);
  }

  lemma FirstThenStarts(rel: string, dir: string)
    requires Clean(rel) && |Parts(rel)| >= 2 && Parts(rel)[0] == dir
    ensures StartsWith(rel, dir + "/")
  {
    hide Parts, Join;
    if '/' !in rel { FlatParts(rel); }
    var i := IndexOf(rel, '/');
    var head, rest := rel[..i], rel[i + 1..];
    PartsSplit(rel, i);
    JoinShort(rest);
    assert [] + Parts(rest) == Parts(rest);
    assert rel == head + "/" + rest;
  }

  /** A clean path has `dir` as its first component, and more, exactly when it starts with it and a slash. */
  lemma FirstComponent(rel: string, dir: string)
    requires Clean(rel) && IsName(dir) && dir != "."
    ensures |Parts(rel)| >= 2 && Parts(rel)[0] == dir <==> StartsWith(rel, dir + "/")
  {
    hide Parts, Clean, StartsWith;
    if StartsWith(rel, dir + "/") { StartsThenFirst(rel, dir); }
    if |Parts(rel)| >= 2 && Parts(rel)[0] == dir { FirstThenStarts(rel, dir); }
  }

  lemma HeadParts(head: string, rest: string)
    requires IsName(head) && head != "."
    ensures Parts(head + "/" + rest) == [head] + Parts(rest)
  {
    hide Parts;
    var k := head + "/" + rest;
    assert k[..|head|] == head && k[|head|] == '/' && k[|head| + 1..] == rest;
    PartsSplit(k, |head|);
  }

  lemma RunParts(name: string, rel: string)
    requires IsName(name) && name != "."
    ensures Parts(Under(RunDirectory(name), rel)) == ["runs", name] + Parts(rel)
  {
    hide Parts;
    HeadParts(name, rel);
    HeadParts("runs", name + "/" + rel);
    assert Under(RunDirectory(name), rel) == "runs" + "/" + (name + "/" + rel);
    assert ["runs"] + ([name] + Parts(rel)) == ["runs", name] + Parts(rel);
  }

  lemma CleanTail(name: string, rel: string)
    requires IsName(name) && name != "." && Clean(Under(RunDirectory(name), rel))
    ensures Clean(rel)
  {
    hide Parts;
    RunParts(name, rel);
    var ps := Parts(rel);
    if ps == [] {
      assert ["runs", name] + ps == ["runs"] + [name];
      JoinCons("runs", [name]);
    } else {
      JoinCons(name, ps);
      JoinCons("runs", [name] + ps);
      assert ["runs", name] + ps == ["runs"] + ([name] + ps);
      assert Under(RunDirectory(name), rel) == "runs/" + (name + "/" + rel);
      assert Join(ps) == rel by {
        assert "runs/" + (name + "/" + Join(ps)) == "runs/" + (name + "/" + rel);
        assert ("runs/" + (name + "/" + rel))[6 + |name|..] == rel;
        assert ("runs/" + (name + "/" + Join(ps)))[6 + |name|..] == Join(ps);
      }
    }
  }

  /** A delivered path is of a class exactly when, in its run, it lies in the directory of that name. */
  lemma ClassInRun(name: string, rel: string, directory: string)
    requires IsName(name) && name != "." && Clean(rel) && IsName(directory) && directory != "."
    ensures IsEvidenceClass(Under(RunDirectory(name), rel), directory) <==> StartsWith(rel, directory + "/")
  {
    hide Parts;
    RunParts(name, rel);
    FirstComponent(rel, directory);
  }

  /** The bound paths that start with this. */
  ghost function Starting(bs: seq<Binding>, start: string): set<string> {
    set k | k in Paths(bs) && StartsWith(k, start)
  }

  ghost function OfClass(bs: seq<Binding>, directory: string): set<string> {
    set k | k in Paths(bs) && IsEvidenceClass(k, directory)
  }

  lemma FirstOnce<T>(s: seq<T>)
    requires s != [] && NoDuplicates(s)
    ensures s[0] !in s[1..] && NoDuplicates(s[1..])
  {
    assert s == [s[0]] + s[1..];
  }

  lemma {:induction false} CountIs(bs: seq<Binding>, directory: string)
    requires NoDuplicates(Paths(bs))
    ensures CountClass(bs, directory) == |OfClass(bs, directory)|
    decreases |bs|
  {
    hide IsEvidenceClass;
    if bs == [] {
      assert OfClass(bs, directory) == {};
    } else {
      assert Paths(bs) == [bs[0].path] + Paths(bs[1..]);
      assert Paths(bs)[1..] == Paths(bs[1..]);
      CountIs(bs[1..], directory);
      FirstOnce(Paths(bs));
      assert OfClass(bs, directory) ==
             OfClass(bs[1..], directory) + if IsEvidenceClass(bs[0].path, directory) then {bs[0].path} else {};
    }
  }

  // ---------------------------------------------------------------- the figures of a sealed descriptor

  lemma {:induction false} CountAppend(a: seq<Binding>, b: seq<Binding>, directory: string)
    ensures CountClass(a + b, directory) == CountClass(a, directory) + CountClass(b, directory)
    decreases |a|
  {
    hide IsEvidenceClass;
    if a == [] {
      assert a + b == b;
    } else {
      assert (a + b)[1..] == a[1..] + b;
      CountAppend(a[1..], b, directory);
    }
  }

  lemma {:induction false} CountInserted(b: Binding, bs: seq<Binding>, directory: string)
    ensures CountClass(InsertBinding(b, bs), directory) == CountClass([b] + bs, directory)
    decreases |bs|
  {
    hide IsEvidenceClass;
    assert ([b] + bs)[1..] == bs;
    if bs != [] && Less(bs[0].path, b.path) {
      CountInserted(b, bs[1..], directory);
      assert ([b] + bs[1..])[1..] == bs[1..];
      assert ([bs[0]] + InsertBinding(b, bs[1..]))[1..] == InsertBinding(b, bs[1..]);
    }
  }

  lemma {:induction false} CountSorted(bs: seq<Binding>, directory: string)
    ensures CountClass(SortBindings(bs), directory) == CountClass(bs, directory)
    decreases |bs|
  {
    hide IsEvidenceClass, InsertBinding;
    if bs != [] {
      CountSorted(bs[1..], directory);
      CountInserted(bs[0], SortBindings(bs[1..]), directory);
      assert ([bs[0]] + SortBindings(bs[1..]))[1..] == SortBindings(bs[1..]);
    }
  }

  /** In a run, the count is that of the paths in the directory. */
  lemma {:induction false} CountInRun(bs: seq<Binding>, name: string, directory: string)
    requires IsName(name) && name != "." && IsName(directory) && directory != "."
    requires NoDuplicates(Paths(bs)) && forall b :: b in bs ==> Clean(b.path)
    ensures CountClass(PrefixAll(bs, RunDirectory(name)), directory) == |Starting(bs, directory + "/")|
    decreases |bs|
  {
    hide IsEvidenceClass, Clean, StartsWith, RunDirectory;
    if bs == [] {
      assert Starting(bs, directory + "/") == {};
    } else {
      assert Paths(bs) == [bs[0].path] + Paths(bs[1..]) && Paths(bs)[1..] == Paths(bs[1..]);
      assert PrefixAll(bs, RunDirectory(name))[1..] == PrefixAll(bs[1..], RunDirectory(name));
      FirstOnce(Paths(bs));
      CountInRun(bs[1..], name, directory);
      ClassInRun(name, bs[0].path, directory);
      assert Starting(bs, directory + "/") ==
             Starting(bs[1..], directory + "/") + if StartsWith(bs[0].path, directory + "/") then {bs[0].path} else {};
    }
  }

  lemma JournalParts(owner: string, rel: string)
    requires IsName(owner) && owner != "."
    ensures Parts(Under(JournalDirectory(owner), rel)) == ["runs", owner, "private", "scheduler-journal"] + Parts(rel)
  {
    hide Parts, RunDirectory;
    var inner := "scheduler-journal" + "/" + rel;
    JournalBelow(owner, rel);
    RunParts(owner, "private" + "/" + inner);
    HeadParts("private", inner);
    HeadParts("scheduler-journal", rel);
    assert ["runs", owner] + (["private"] + (["scheduler-journal"] + Parts(rel)))
        == ["runs", owner, "private", "scheduler-journal"] + Parts(rel);
  }

  lemma JournalBelow(owner: string, rel: string)
    ensures Under(JournalDirectory(owner), rel) ==
            Under(RunDirectory(owner), "private" + "/" + ("scheduler-journal" + "/" + rel))
  {
    hide RunDirectory;
    assert JournalPath() == "private" + "/" + "scheduler-journal";
    Regroup(RunDirectory(owner), "private", "scheduler-journal", rel);
  }

  lemma Regroup(a: string, b: string, c: string, d: string)
    ensures a + "/" + (b + "/" + c) + "/" + d == a + "/" + (b + "/" + (c + "/" + d))
  {
  }

  /** In a journal, all of it is private evidence and none of it logs. */
  lemma JournalClass(owner: string, rel: string)
    requires IsName(owner) && owner != "."
    ensures IsEvidenceClass(Under(JournalDirectory(owner), rel), "private")
    ensures !IsEvidenceClass(Under(JournalDirectory(owner), rel), "logs")
  {
    hide Parts;
    JournalParts(owner, rel);
  }

  lemma {:induction false} CountInJournal(bs: seq<Binding>, owner: string)
    requires IsName(owner) && owner != "."
    ensures CountClass(PrefixAll(bs, JournalDirectory(owner)), "private") == |bs|
    ensures CountClass(PrefixAll(bs, JournalDirectory(owner)), "logs") == 0
    decreases |bs|
  {
    hide IsEvidenceClass, JournalDirectory;
    if bs != [] {
      assert PrefixAll(bs, JournalDirectory(owner))[1..] == PrefixAll(bs[1..], JournalDirectory(owner));
      CountInJournal(bs[1..], owner);
      JournalClass(owner, bs[0].path);
    }
  }

  /** The paths of an acceptable tree are clean. */
  lemma CleanTree(c: Context, tree: Tree, ds: seq<string>, k: string)
    requires WellFormed(tree) && Inventoried(c, tree, ds) && !c.safe(".") && k in tree
    ensures Clean(k)
  {
    hide WellFormed, Parts, Join;
    forall q, x | IsDirectory(tree, q) && x in tree && IsChild(q, x) ensures SafeNameIn(c, q, x) {
      assert DirectoryInventory.SafeBelow(c.safe, tree, q);
      assert DirectoryInventory.SafeEntry(c.safe, tree, q, x);
    }
    AllReachable(c, tree, k);
  }

  lemma ObservedPlain(c: Context, runs: Tree, name: string, run: Run)
    requires SoundContext(c) && WellFormed(runs) && Observable(c, runs, name, run)
    ensures IsName(name) && name != "." && run.name == name && NoDuplicates(Paths(run.inventory))
    ensures forall b :: b in run.inventory ==> Clean(b.path)
    ensures run.journal.Some? ==>
              IsName(run.journal.value.reference.owner) && run.journal.value.reference.owner != "."
  {
    hide RunInventory, Subtree, WellFormed, Inventoried, Clean, Collected, ReferencePath, Listing, BoundedFile, Runs,
      RunManifestName, Paths, DescriptorName, MarkerName;
    var tree := Subtree(runs, name);
    SubtreeWellFormed(runs, name);
    InventoryIsExact(c, runs, name, run.manifest);
    AscendingDistinct(Paths(run.inventory));
    forall b | b in run.inventory ensures Clean(b.path) {
      PathMembers(run.inventory, b.path);
      RunPath(c, runs, name, run, b.path);
      CleanTree(c, tree, run.directories, b.path);
    }
  }

  lemma SealedCounts(run: Run)
    requires HasManifest(run)
    ensures var p := Sealing(run).payload;
            && p.privateArtifactCount == CountClass(DeliveryArtifacts(run), "private")
            && p.logArtifactCount == CountClass(DeliveryArtifacts(run), "logs")
            && p.privateEvidenceIncluded == (p.privateArtifactCount > 0) && p.logsIncluded == (p.logArtifactCount > 0)
  {
    hide CountClass, DeliveryArtifacts, BindingsOf, TotalSize, DeliveryDirectories, Dependencies, Under, RunDirectory;
  }

  /** The sealed figures of an observed run: its private evidence is what lies in `private/` and the whole journal
      it refers to, its logs what lies in `logs/`, and each flag says whether there is any. */
  lemma SealFigures(c: Context, runs: Tree, name: string, run: Run)
    requires SoundContext(c) && WellFormed(runs) && Observable(c, runs, name, run) && HasManifest(run)
    ensures var p := Sealing(run).payload;
            && p.privateArtifactCount == |Starting(run.inventory, "private/")|
                                         + (if run.journal.Some? then |run.journal.value.artifacts| else 0)
            && p.logArtifactCount == |Starting(run.inventory, "logs/")|
            && (p.privateEvidenceIncluded <==> Starting(run.inventory, "private/") != {})
            && (p.logsIncluded <==> Starting(run.inventory, "logs/") != {})
  {
    hide Observable, WellFormed, SoundContext, Clean, CountClass, SortBindings, Starting, Subtree, RunDirectory, JournalDirectory,
      BindingsOf, ReferencePath, TotalSize, DeliveryDirectories, Under, RunManifestName, Sound;
    SoundRules(c);
    ObservedPlain(c, runs, name, run);
    JournalDependency(c, runs, name, run);
    SealedCounts(run);
    ClassTexts();
    CountInRun(run.inventory, name, "private");
    CountInRun(run.inventory, name, "logs");
    CountBoth(c, runs, name, run, "private");
    CountBoth(c, runs, name, run, "logs");
    if run.journal.Some? {
      CountInJournal(run.journal.value.artifacts, run.journal.value.reference.owner);
      ReferenceIsPrivate(c, runs, name, run);
    }
  }

  lemma ClassTexts()
    ensures "private" + "/" == "private/" && "logs" + "/" == "logs/"
    ensures IsName("private") && IsName("logs") && "private" != "." && "logs" != "."
  {
  }

  lemma CountBoth(c: Context, runs: Tree, name: string, run: Run, directory: string)
    requires Shippable(c, runs, name, run)
    ensures CountClass(DeliveryArtifacts(run), directory) ==
            CountClass(PrefixAll(run.inventory, RunDirectory(name)), directory)
            + (if run.journal.None? then 0
               else CountClass(PrefixAll(run.journal.value.artifacts,
                                         JournalDirectory(run.journal.value.reference.owner)), directory))
  {
    hide Observable, WellFormed, CountClass, SortBindings, PrefixAll, RunDirectory, JournalDirectory, BindingsOf, ReferencePath,
      TotalSize, Under, Sound, Observed;
    JournalDependency(c, runs, name, run);
    ShippableName(c, runs, name, run);
    var own := PrefixAll(run.inventory, RunDirectory(name));
    if run.journal.Some? {
      var extra := PrefixAll(run.journal.value.artifacts, JournalDirectory(run.journal.value.reference.owner));
      CountAppend(own, extra, directory);
      CountSorted(own + extra, directory);
    } else {
      CountSorted(own, directory);
    }
  }

  lemma ShippableName(c: Context, runs: Tree, name: string, run: Run)
    requires Shippable(c, runs, name, run)
    ensures run.name == name
  {
    hide RunInventory, Inventoried, JournalObserved, Subtree, RunValid, WellFormed, Sound;
  }

  lemma ReferenceIsPrivate(c: Context, runs: Tree, name: string, run: Run)
    requires Observable(c, runs, name, run) && run.journal.Some?
    ensures Starting(run.inventory, "private/") != {}
  {
    hide RunValid, RunInventory, Inventoried, Subtree, JournalObserved;
    assert ReferencePath()[..8] == "private/";
    assert ReferencePath() in Starting(run.inventory, "private/");
  }

  // ---------------------------------------------------------------- what an accepted wrapper says

  /** The run of an accepted wrapper is valid, and keys of the run are keys of the wrapper. */
  lemma AcceptedParts(c: Context, tree: Tree, d: Descriptor) returns (m: Manifest)
    requires WellFormed(tree) && Accepts(c, tree, d)
    ensures var p := d.payload; var x := p.sourceRunDirectoryName; var runs := Subtree(tree, Runs());
            && DescriptorExact(c.rules, d) && ContentsMatch(c, tree, p, m) && Inventoried(c, tree, p.directories)
            && WellFormed(runs) && RunValid(c, runs, x, m)
            && p.primaryRunDirectory == RunDirectory(x) && x != ""
            && Subtree(runs, x) == Subtree(tree, RunDirectory(x))
  {
    hide Accepts, WellFormed, Subtree, Inventoried, RunInventory, DescriptorName, MarkerName, Referenced, DescriptorExact,
      InventoryMatches, DescribesRun, RunValid, Runs;
    m := AcceptedContents(c, tree, d);
    AcceptedDescriptor(c, tree, d);
    SubtreeWellFormed(tree, Runs()) by { assert Runs() != "" by { RunsNotEmpty(); } }
    RunNameNotEmpty(c, Subtree(tree, Runs()), d.payload.sourceRunDirectoryName, m);
    SubtreeTwice(tree, Runs(), d.payload.sourceRunDirectoryName);
    RunUnderRuns(d.payload.sourceRunDirectoryName);
  }

  lemma RunUnderRuns(x: string)
    ensures Under(Runs(), x) == RunDirectory(x)
  {
  }

  lemma RunNameNotEmpty(c: Context, runs: Tree, x: string, m: Manifest)
    requires RunValid(c, runs, x, m)
    ensures x != ""
  {
    hide Subtree, Collected, ManifestExact, Listing, RunInventory, CrossChecked;
  }

  lemma AcceptedDescriptor(c: Context, tree: Tree, d: Descriptor)
    requires Accepts(c, tree, d)
    ensures DescriptorExact(c.rules, d)
    ensures DescriptorName() in tree && tree[DescriptorName()].File? && tree[DescriptorName()].links == 1
    ensures |tree[DescriptorName()].content| <= 100_000_000
    ensures c.parseDescriptor(tree[DescriptorName()].content) == Some(d)
  {
    hide DescriptorExact, ContentsValid, Listing;
  }

  /** A public subset is never taken for a complete run. */
  lemma AcceptedHasNoSubset(c: Context, tree: Tree, d: Descriptor)
    requires WellFormed(tree) && Accepts(c, tree, d)
    ensures "runs/" + d.payload.sourceRunDirectoryName + "/public-evidence-subset-manifest.json" !in tree
  {
    hide Accepts, WellFormed, Subtree, Inventoried, ContentsMatch, DescriptorExact, RunValid, Listing, PublicSubsetName;
    var x := d.payload.sourceRunDirectoryName;
    var m := AcceptedParts(c, tree, d);
    NoSubset(c, Subtree(tree, Runs()), x, m);
    SubtreeAt(tree, RunDirectory(x), PublicSubsetName());
    assert Below(RunDirectory(x), PublicSubsetName()) ==
           "runs/" + x + "/public-evidence-subset-manifest.json" by { SubsetText(x); }
  }

  lemma SubsetText(x: string)
    ensures Below(RunDirectory(x), PublicSubsetName()) == "runs/" + x + "/public-evidence-subset-manifest.json"
  {
    hide RunDirectory, Below, PublicSubsetName;
    RunPlace(x);
    SubsetBelow("runs/" + x);
  }

  lemma SubsetIsName()
    ensures IsName(PublicSubsetName()) && PublicSubsetName() != ""
  {
  }

  lemma NoSubset(c: Context, runs: Tree, name: string, m: Manifest)
    requires RunValid(c, runs, name, m)
    ensures PublicSubsetName() !in Subtree(runs, name)
  {
    hide Subtree, Collected, ManifestExact, RunInventory, CrossChecked, PublicSubsetName, Listing, BoundedFile;
    SubsetIsName();
    ListingMember(Subtree(runs, name), "", PublicSubsetName());
  }

  /** Nor is one exported. */
  lemma ObservedHasNoSubset(c: Context, runs: Tree, name: string, run: Run)
    requires Observable(c, runs, name, run)
    ensures name + "/public-evidence-subset-manifest.json" !in runs
  {
    hide Subtree, RunValid, RunInventory, Inventoried, JournalObserved, PublicSubsetName;
    NoSubset(c, runs, name, run.manifest);
    SubtreeAt(runs, name, PublicSubsetName());
    assert name != "" by { RunNameNotEmpty(c, runs, name, run.manifest); }
    assert Below(name, PublicSubsetName()) == name + "/public-evidence-subset-manifest.json" by { SubsetBelow(name); }
  }

  lemma SubsetBelow(name: string)
    requires name != ""
    ensures Below(name, PublicSubsetName()) == name + "/public-evidence-subset-manifest.json"
  {
    assert name + "/" + "public-evidence-subset-manifest.json" == name + "/public-evidence-subset-manifest.json";
  }

  /** The counts, sums and hashes that an accepted descriptor states are those of the wrapper: its bound files in
      order, its directories in order, and its own payload. */
  lemma AcceptedFigures(c: Context, tree: Tree, d: Descriptor)
    requires WellFormed(tree) && Accepts(c, tree, d)
    ensures var p := d.payload;
            && Ascending(Paths(p.artifacts)) && p.artifactCount == |p.artifacts| == |Elements(Paths(p.artifacts))|
            && 2 <= p.artifactCount <= 200_001
            && p.artifactTotalBytes == TotalSize(p.artifacts) && 1 <= p.artifactTotalBytes <= 8_689_934_592
            && p.artifactInventorySha256 == InventoryHash(p.artifacts)
            && Ascending(p.directories) && Elements(p.directories) == Directories(tree)
            && p.directoryCount == |Directories(tree)| && 2 <= p.directoryCount <= 200_001
            && p.directoryInventorySha256 == DirectoriesHash(p.directories)
            && d.descriptorSha256 == PayloadHash(p)
  {
    hide Accepts, WellFormed, Subtree, ContentsMatch, RunValid, TotalSize, CountClass, SortedSet, Portable, BindingsOf,
      InDependency, StartsWith, DependencyExact, DependencyBound, RunDirectory, Ascending, DirectoryInventory.Acceptable, Paths, Directories, Under;
    var p := d.payload;
    var m := AcceptedParts(c, tree, d);
    IsSortedSet(Paths(p.artifacts));
    IsSortedSet(p.directories);
    AscendingSize(Paths(p.artifacts));
    AscendingSize(p.directories);
    PathsCount(p.artifacts);
  }

  lemma PathsCount(bs: seq<Binding>)
    ensures |Paths(bs)| == |bs|
  {
  }

  /** The names in an accepted descriptor: a safe run name, and every place below it. */
  lemma AcceptedNames(c: Context, tree: Tree, d: Descriptor)
    requires WellFormed(tree) && Accepts(c, tree, d)
    ensures var p := d.payload; var x := p.sourceRunDirectoryName;
            && c.rules.safeRunName(x) && 1 <= |x| <= 128 && 1 <= |p.sourceRunId| <= 128
            && p.primaryRunDirectory == "runs/" + x
            && p.sourceManifestPath == "runs/" + x + "/run-evidence-manifest.json"
            && |p.dependencies| <= 1
            && forall e :: e in p.dependencies ==>
                 && e.reference.consumer == x
                 && e.referencePath == "runs/" + x + "/private/scheduler-journal-reference.json"
                 && e.journalDirectory == "runs/" + e.reference.owner + "/private/scheduler-journal"
                 && 1 <= e.artifactCount <= 200_001 && e.artifactCount == |e.artifacts|
                 && 1 <= e.artifactTotalBytes <= 8_689_934_592 && e.artifactTotalBytes == TotalSize(e.artifacts)
                 && e.artifactInventorySha256 == InventoryHash(e.artifacts) && Ascending(Paths(e.artifacts))
                 && 3 <= e.directoryCount <= 200_001 && e.directoryCount == |e.directories|
                 && e.directoryInventorySha256 == DirectoriesHash(e.directories) && Ascending(e.directories)
  {
    hide Accepts, WellFormed, Subtree, RunValid, TotalSize, CountClass, SortedSet, Portable, BindingsOf, InventoryMatches,
      InDependency, StartsWith, Ascending, Inventoried, Paths, RunInventory, RunManifestName, ReferencePath, JournalPath;
    var p := d.payload;
    var m := AcceptedParts(c, tree, d);
    RunIdBounds(c, Subtree(tree, Runs()), p.sourceRunDirectoryName, m);
    FixedPlaces(p.sourceRunDirectoryName);
    forall e | e in p.dependencies ensures
      && e.journalDirectory == "runs/" + e.reference.owner + "/private/scheduler-journal"
      && Ascending(Paths(e.artifacts)) && Ascending(e.directories)
    {
      FixedPlaces(e.reference.owner);
      IsSortedSet(Paths(e.artifacts));
      IsSortedSet(e.directories);
    }
  }

  lemma RunPlace(x: string)
    ensures RunDirectory(x) == "runs/" + x
  {
    assert "runs" + "/" + x == "runs/" + x;
  }

  lemma ManifestPlace(run: string)
    ensures Under(run, RunManifestName()) == run + "/run-evidence-manifest.json"
  {
    assert run + "/" + "run-evidence-manifest.json" == run + "/run-evidence-manifest.json";
  }

  lemma ReferencePlace(run: string)
    ensures Under(run, ReferencePath()) == run + "/private/scheduler-journal-reference.json"
  {
    assert run + "/" + "private/scheduler-journal-reference.json" == run + "/private/scheduler-journal-reference.json";
  }

  lemma JournalIn(run: string)
    ensures Under(run, JournalPath()) == run + "/private/scheduler-journal"
  {
    assert run + "/" + "private/scheduler-journal" == run + "/private/scheduler-journal";
  }

  lemma FixedPlaces(x: string)
    ensures RunDirectory(x) == "runs/" + x
    ensures Under(RunDirectory(x), RunManifestName()) == "runs/" + x + "/run-evidence-manifest.json"
    ensures Under(RunDirectory(x), ReferencePath()) == "runs/" + x + "/private/scheduler-journal-reference.json"
    ensures JournalDirectory(x) == "runs/" + x + "/private/scheduler-journal"
  {
    hide Under, RunManifestName, ReferencePath, JournalPath, RunDirectory;
    RunPlace(x);
    ManifestPlace("runs/" + x);
    ReferencePlace("runs/" + x);
    JournalIn("runs/" + x);
  }

  lemma RunIdBounds(c: Context, runs: Tree, name: string, m: Manifest)
    requires RunValid(c, runs, name, m)
    ensures 1 <= |m.runId| <= 128 && 1 <= |m.artifacts| <= 100_000 && TotalSize(m.artifacts) <= 4_294_967_296
    ensures var run := Subtree(runs, name);
            && RunManifestName() in run && run[RunManifestName()].File? && run[RunManifestName()].links == 1
            && |run[RunManifestName()].content| <= 100_000_000
  {
    hide Subtree, RunInventory, CrossChecked, Listing, Paths, TotalSize, SortedSet, RunManifestName, PublicSubsetName, Ascending,
      FileBindings, AllAllowed;
  }

  /** Every entry of an accepted wrapper is a directory or an unshared file with a short path of safe names. */
  lemma AcceptedEntries(c: Context, tree: Tree, d: Descriptor, k: string)
    requires WellFormed(tree) && Accepts(c, tree, d) && !c.safe(".") && k in tree && k != ""
    ensures tree[k] == Trees.Directory || (tree[k].File? && tree[k].links == 1)
    ensures |k| <= 4_096 && Clean(k) && forall n :: n in Parts(k) ==> c.safe(n)
  {
    hide Accepts, WellFormed, Subtree, ContentsMatch, RunValid, DescriptorExact, Parts, Join, IsChild;
    var m := AcceptedParts(c, tree, d);
    CleanTree(c, tree, d.payload.directories, k);
    var q := Parent(tree, k);
    assert DirectoryInventory.SafeEntry(c.safe, tree, q, k) by {
      assert DirectoryInventory.SafeBelow(c.safe, tree, q);
    }
    SafeParts(c, tree, d.payload.directories, k);
  }

  lemma SafeParts(c: Context, tree: Tree, ds: seq<string>, k: string)
    requires WellFormed(tree) && Inventoried(c, tree, ds) && !c.safe(".") && k in tree
    ensures forall n :: n in Parts(k) ==> c.safe(n)
  {
    hide WellFormed, Parts, Join;
    forall q, x | IsDirectory(tree, q) && x in tree && IsChild(q, x) ensures SafeNameIn(c, q, x) {
      assert DirectoryInventory.SafeBelow(c.safe, tree, q);
      assert DirectoryInventory.SafeEntry(c.safe, tree, q, x);
    }
    AllReachable(c, tree, k);
  }

  /** No two bound files or directories of an accepted wrapper have spellings that fold together, and each is its
      own normal form. */
  lemma AcceptedFolds(c: Context, tree: Tree, d: Descriptor, k: string, l: string)
    requires WellFormed(tree) && Accepts(c, tree, d) && !c.safe(".") && k != "" && l != ""
    requires k in d.payload.directories || k in Paths(d.payload.artifacts)
    requires l in d.payload.directories || l in Paths(d.payload.artifacts)
    ensures c.rules.tables.normalize(k) == Some(k) && c.rules.tables.nfc(k) == k
    ensures c.rules.tables.casefold(k) == c.rules.tables.casefold(l) ==> k == l
  {
    hide Accepts, WellFormed, Subtree, ContentsMatch, RunValid, Parts, Paths, Portable, BindingsOf, InDependency, SortedSet, StartsWith,
      DependencyExact, DependencyBound, TotalSize, CountClass, Holds;
    var p := d.payload;
    var m := AcceptedParts(c, tree, d);
    AcceptedIsExact(c, tree, d);
    assert Portable(c.rules.tables, [DescriptorName()] + Paths(p.artifacts), p.directories);
    AcceptedKey(c, tree, d, k);
    AcceptedKey(c, tree, d, l);
    PortableApart(c.rules.tables, [DescriptorName()] + Paths(p.artifacts), p.directories, k, l);
  }

  lemma AcceptedKey(c: Context, tree: Tree, d: Descriptor, k: string)
    requires WellFormed(tree) && Accepts(c, tree, d) && !c.safe(".") && k != ""
    requires k in d.payload.directories || k in Paths(d.payload.artifacts)
    ensures k in tree && Clean(k)
  {
    hide Accepts, WellFormed, Subtree, ContentsMatch, RunValid, DescriptorExact, Parts, Join, IsChild, Clean;
    var p := d.payload;
    var m := AcceptedParts(c, tree, d);
    AcceptedIsExact(c, tree, d);
    if k in Paths(p.artifacts) {
      PathMembers(p.artifacts, k);
      var b :| b in p.artifacts && b.path == k;
      assert Holds(tree, b);
    } else {
      assert k in Elements(p.directories);
    }
    CleanTree(c, tree, p.directories, k);
  }

  lemma PortableApart(t: Names.Tables, paths: seq<string>, directories: seq<string>, k: string, l: string)
    requires Portable(t, paths, directories) && Clean(k) && Clean(l) && k != "" && l != ""
    requires (k in directories || k in paths) && (l in directories || l in paths)
    ensures t.normalize(k) == Some(k) && t.nfc(k) == k
    ensures t.casefold(k) == t.casefold(l) ==> k == l
  {
    hide Parts, Join, PrefixesOf;
    WholeRegistered(paths, directories, k);
    WholeRegistered(paths, directories, l);
    assert PortableText(t, k) && PortableText(t, l);
  }

  /** A clean path is its own longest prefix. */
  lemma WholeRegistered(paths: seq<string>, directories: seq<string>, k: string)
    requires Clean(k) && k != "" && (k in directories || k in paths)
    ensures exists p :: p in Registered(paths, directories) && p.text == k
  {
    hide Parts;
    var n := |Parts(k)|;
    assert n > 0;
    assert Parts(k)[..n] == Parts(k);
    if k in directories {
      var p := PrefixAt(k, PortablePaths.Directory, n - 1);
      assert p in PrefixesOf(k, PortablePaths.Directory);
      assert p in PrefixesIn(directories, PortablePaths.Directory);
    } else {
      var p := PrefixAt(k, PortablePaths.File, n - 1);
      assert p in PrefixesOf(k, PortablePaths.File);
      assert p in PrefixesIn(paths, PortablePaths.File);
    }
  }

  /** A clean path below a run is of a class exactly when it lies in the run's directory of that name. */
  lemma ClassOfKey(x: string, k: string, directory: string)
    requires IsName(x) && x != "." && Clean(k) && StartsWith(k, RunDirectory(x) + "/")
    requires IsName(directory) && directory != "."
    ensures IsEvidenceClass(k, directory) <==> StartsWith(k, RunDirectory(x) + "/" + directory + "/")
  {
    hide Clean, IsEvidenceClass, RunDirectory;
    var base := RunDirectory(x);
    var rel := k[|base| + 1..];
    assert k == Under(base, rel);
    CleanTail(x, rel);
    ClassInRun(x, rel, directory);
    assert StartsWith(rel, directory + "/") <==> StartsWith(k, base + "/" + directory + "/") by {
      StartsAfter(base + "/", rel, directory + "/");
      assert base + "/" + (directory + "/") == base + "/" + directory + "/";
      assert base + "/" + rel == k;
    }
  }

  lemma StartsAfter(a: string, b: string, c: string)
    ensures StartsWith(a + b, a + c) <==> StartsWith(b, c)
  {
    if |c| <= |b| {
      assert (a + b)[..|a| + |c|] == a + b[..|c|];
      assert (a + b[..|c|])[|a|..] == b[..|c|] && (a + c)[|a|..] == c;
    }
  }

  /** Where each bound path lies: in the run or in a journal, each under a plain name. */
  lemma AcceptedPlace(c: Context, tree: Tree, d: Descriptor, k: string)
    requires SoundContext(c) && WellFormed(tree) && Accepts(c, tree, d) && k in Paths(d.payload.artifacts)
    ensures var p := d.payload;
            && IsName(p.sourceRunDirectoryName) && p.sourceRunDirectoryName != "."
            && (|| StartsWith(k, RunDirectory(p.sourceRunDirectoryName) + "/")
                || exists e :: e in p.dependencies && IsName(e.reference.owner) && e.reference.owner != "."
                               && StartsWith(k, JournalDirectory(e.reference.owner) + "/"))
  {
    hide Accepts, WellFormed, Subtree, RunValid, Portable, BindingsOf, TotalSize, CountClass, SortedSet, StartsWith, Inventoried,
      DescribesRun, JournalMatches, SortBindings, Paths, RunDirectory, JournalDirectory, Runs, DescriptorName, MarkerName, Listing;
    var p := d.payload;
    var m := AcceptedParts(c, tree, d);
    if InDependency(p, k) {
      var i :| 0 <= i < |p.dependencies| && k in Paths(p.dependencies[i].artifacts);
      var e := p.dependencies[i];
      PathMembers(e.artifacts, k);
      OwnerIsName(c, tree, e.reference.owner);
      assert e in p.dependencies;
    }
  }

  lemma OwnerIsName(c: Context, tree: Tree, owner: string)
    requires OwnerLayout(c, tree, owner) && !c.safe(".") && owner in Listing(tree, Runs())
    ensures IsName(owner) && owner != "."
  {
    ListingMember(tree, Runs(), owner);
  }

  /** The private evidence and the logs that an accepted descriptor states, counted in the wrapper. */
  lemma AcceptedClasses(c: Context, tree: Tree, d: Descriptor)
    requires SoundContext(c) && WellFormed(tree) && Accepts(c, tree, d)
    ensures var p := d.payload; var x := p.sourceRunDirectoryName; var bound := Elements(Paths(p.artifacts));
            && p.privateArtifactCount ==
                 |set k | k in bound && (StartsWith(k, "runs/" + x + "/private/") || InJournal(p, k))|
            && p.logArtifactCount == |set k | k in bound && StartsWith(k, "runs/" + x + "/logs/")|
            && (p.privateEvidenceIncluded <==> p.privateArtifactCount > 0)
            && (p.logsIncluded <==> p.logArtifactCount > 0)
  {
    hide Accepts, WellFormed, Subtree, RunValid, Portable, BindingsOf, TotalSize, SortedSet, StartsWith, Inventoried, ContentsMatch,
      Paths, RunDirectory, InDependency, DependencyExact, DependencyBound, IsEvidenceClass, CountClass, InJournal, SoundContext;
    var p := d.payload;
    var x := p.sourceRunDirectoryName;
    var m := AcceptedParts(c, tree, d);
    IsSortedSet(Paths(p.artifacts));
    AscendingDistinct(Paths(p.artifacts));
    CountIs(p.artifacts, "private");
    CountIs(p.artifacts, "logs");
    forall k | k in Paths(p.artifacts)
      ensures IsEvidenceClass(k, "private") <==> StartsWith(k, "runs/" + x + "/private/") || InJournal(p, k)
      ensures IsEvidenceClass(k, "logs") <==> StartsWith(k, "runs/" + x + "/logs/")
    {
      KeyClasses(c, tree, d, k);
    }
    assert OfClass(p.artifacts, "private") ==
           set k | k in Elements(Paths(p.artifacts)) && (StartsWith(k, "runs/" + x + "/private/") || InJournal(p, k));
    assert OfClass(p.artifacts, "logs") ==
           set k | k in Elements(Paths(p.artifacts)) && StartsWith(k, "runs/" + x + "/logs/");
  }

  /** The path lies in a delivered journal. */
  ghost predicate InJournal(p: Payload, k: string) {
    exists e :: e in p.dependencies && StartsWith(k, "runs/" + e.reference.owner + "/private/scheduler-journal/")
  }

  lemma KeyClasses(c: Context, tree: Tree, d: Descriptor, k: string)
    requires SoundContext(c) && WellFormed(tree) && Accepts(c, tree, d) && k in Paths(d.payload.artifacts)
    ensures var p := d.payload; var x := p.sourceRunDirectoryName;
            && (IsEvidenceClass(k, "private") <==> StartsWith(k, "runs/" + x + "/private/") || InJournal(p, k))
            && (IsEvidenceClass(k, "logs") <==> StartsWith(k, "runs/" + x + "/logs/"))
  {
    hide Accepts, WellFormed, Paths, RunDirectory, JournalDirectory, IsEvidenceClass, SoundContext, Clean, StartsWith;
    var p := d.payload;
    var x := p.sourceRunDirectoryName;
    AcceptedPlace(c, tree, d, k);
    NotEmptyPath(c, tree, d, k);
    RunClassPaths(x);
    if StartsWith(k, RunDirectory(x) + "/") {
      ClassOfKey(x, k, "private");
      ClassOfKey(x, k, "logs");
    }
    LongerStart(k, "runs/" + x + "/", "private/");
    LongerStart(k, "runs/" + x + "/", "logs/");
    if InJournal(p, k) {
      var e :| e in p.dependencies && StartsWith(k, "runs/" + e.reference.owner + "/private/scheduler-journal/");
      JournalKey(c, tree, d, e, k);
    }
    if !StartsWith(k, RunDirectory(x) + "/") {
      var e :| e in p.dependencies && IsName(e.reference.owner) && e.reference.owner != "."
               && StartsWith(k, JournalDirectory(e.reference.owner) + "/");
      JournalPathText(e.reference.owner);
      assert InJournal(p, k);
    }
  }

  lemma LongerStart(k: string, a: string, b: string)
    ensures StartsWith(k, a + b) ==> StartsWith(k, a)
  {
    if StartsWith(k, a + b) { assert k[..|a|] == (a + b)[..|a|]; }
  }

  lemma RunClassPaths(x: string)
    ensures RunDirectory(x) + "/" == "runs/" + x + "/"
    ensures RunDirectory(x) + "/" + "private" + "/" == "runs/" + x + "/private/" == "runs/" + x + "/" + "private/"
    ensures RunDirectory(x) + "/" + "logs" + "/" == "runs/" + x + "/logs/" == "runs/" + x + "/" + "logs/"
  {
    hide RunDirectory;
    RunPlace(x);
    assert "runs/" + x + "/" + "private" + "/" == "runs/" + x + "/private/";
    assert "runs/" + x + "/" + "logs" + "/" == "runs/" + x + "/logs/";
  }

  lemma JournalPathText(o: string)
    ensures JournalDirectory(o) + "/" == "runs/" + o + "/private/scheduler-journal/"
  {
    hide JournalDirectory;
    FixedPlaces(o);
    assert "runs/" + o + "/private/scheduler-journal" + "/" == "runs/" + o + "/private/scheduler-journal/";
  }

  lemma NotEmptyPath(c: Context, tree: Tree, d: Descriptor, k: string)
    requires SoundContext(c) && WellFormed(tree) && Accepts(c, tree, d) && k in Paths(d.payload.artifacts)
    ensures Clean(k)
  {
    hide Accepts, WellFormed, Paths, Clean;
    if k == "" { NoParts(); assert Clean("") by { EmptyIsClean(); } } else { AcceptedKey(c, tree, d, k); }
  }

  lemma EmptyIsClean()
    ensures Clean("")
  {
  }

  lemma JournalKey(c: Context, tree: Tree, d: Descriptor, e: Dependency, k: string)
    requires SoundContext(c) && WellFormed(tree) && Accepts(c, tree, d) && e in d.payload.dependencies
    requires StartsWith(k, "runs/" + e.reference.owner + "/private/scheduler-journal/")
    ensures IsEvidenceClass(k, "private") && !IsEvidenceClass(k, "logs")
  {
    hide Accepts, WellFormed, Subtree, RunValid, Inventoried, DescribesRun, JournalMatches, SortBindings, DescriptorExact,
      JournalDirectory, IsEvidenceClass, Runs, DescriptorName, MarkerName, Listing, OwnerLayout;
    var m := AcceptedParts(c, tree, d);
    var i :| 0 <= i < |d.payload.dependencies| && d.payload.dependencies[i] == e;
    var o := e.reference.owner;
    assert OwnerLayout(c, tree, o);
    OwnerIsName(c, tree, o);
    JournalPathText(o);
    var rel := k[|JournalDirectory(o)| + 1..];
    assert k == Under(JournalDirectory(o), rel);
    JournalClass(o, rel);
  }

  // ---------------------------------------------------------------- journals and custody in an accepted wrapper

  /** A delivered journal is listed as it lies in the wrapper: all its files but one of the run manifest's name at
      its top, all its directories with the two above it, and the bytes of the reference to it. */
  lemma AcceptedJournal(c: Context, tree: Tree, d: Descriptor, e: Dependency)
    requires WellFormed(tree) && Accepts(c, tree, d) && e in d.payload.dependencies
    ensures var o := e.reference.owner; var at := JournalDirectory(o);
            && (forall k :: k in Paths(e.artifacts) <==>
                  k in Files(tree) && StartsWith(k, at + "/") && k != at + "/run-evidence-manifest.json" && k != at + "/")
            && (forall k :: k in e.directories <==>
                  || k == RunDirectory(o) || k == Under(RunDirectory(o), "private") || k == at
                  || (k in Directories(tree) && StartsWith(k, at + "/") && k != at + "/"))
            && e.referencePath in tree && tree[e.referencePath].File?
            && e.referenceFileSha256 == FileHash(tree[e.referencePath].content)
  {
    hide Accepts, WellFormed, Subtree, RunValid, Inventoried, DescribesRun, SortBindings, SortedSet, Portable, TotalSize, CountClass,
      JournalDirectory, Runs, DescriptorName, MarkerName, Listing, OwnerLayout, RunDirectory, Paths, StartsWith, Collected, Under,
      JournalDirectories;
    var m := AcceptedParts(c, tree, d);
    var i :| 0 <= i < |d.payload.dependencies| && d.payload.dependencies[i] == e;
    var at := e.journalDirectory;
    assert JournalMatches(c, tree, e);
    SubtreeWellFormed(tree, at);
    var journal := Subtree(tree, at);
    var bs :| Collected(c, journal, bs) && PrefixAll(bs, at) == e.artifacts;
    var ds :| Inventoried(c, journal, ds) && JournalDirectories(e, ds) == e.directories;
    forall k ensures k in Paths(e.artifacts) <==>
      k in Files(tree) && StartsWith(k, at + "/") && k != at + "/run-evidence-manifest.json" && k != at + "/"
    {
      JournalFile(c, tree, at, bs, k);
    }
    forall k ensures k in e.directories <==>
      || k == RunDirectory(e.reference.owner) || k == Under(RunDirectory(e.reference.owner), "private") || k == at
      || (k in Directories(tree) && StartsWith(k, at + "/") && k != at + "/")
    {
      JournalFolder(c, tree, e, ds, k);
    }
    ReferenceBytes(c, tree, d, i);
  }

  lemma ReferenceBytes(c: Context, tree: Tree, d: Descriptor, i: nat)
    requires WellFormed(tree) && Accepts(c, tree, d) && i < |d.payload.dependencies|
    ensures var e := d.payload.dependencies[i];
            && e.referencePath in tree && tree[e.referencePath].File?
            && e.referenceFileSha256 == FileHash(tree[e.referencePath].content)
  {
    hide Accepts, WellFormed, SortedSet, Portable, TotalSize, CountClass, Paths, DependencyExact, InDependency, BindingsOf,
      StartsWith, RunDirectory, Under;
    var p := d.payload;
    var e := p.dependencies[i];
    AcceptedDescriptor(c, tree, d);
    AcceptedIsExact(c, tree, d);
    var own := BindingsOf(p.artifacts, e.referencePath);
    BoundOf(p.artifacts, e.referencePath);
    assert Holds(tree, own[0]);
  }

  lemma {:induction false} BoundOf(bs: seq<Binding>, k: string)
    ensures forall b :: b in BindingsOf(bs, k) ==> b in bs && b.path == k
    decreases |bs|
  {
    if bs != [] { BoundOf(bs[1..], k); }
  }

  lemma JournalFile(c: Context, tree: Tree, at: string, bs: seq<Binding>, k: string)
    requires WellFormed(Subtree(tree, at)) && Collected(c, Subtree(tree, at), bs)
    ensures k in Paths(PrefixAll(bs, at)) <==>
              k in Files(tree) && StartsWith(k, at + "/") && k != at + "/run-evidence-manifest.json" && k != at + "/"
  {
    hide WellFormed, Subtree, Collected, RunManifestName;
    var journal := Subtree(tree, at);
    PrefixedPaths(bs, at, k);
    if StartsWith(k, at + "/") {
      var r := k[|at| + 1..];
      TailText(at, k);
      SubtreeAt(tree, at, r);
      CollectedPath(c, journal, bs, r);
      ManifestPlace(at);
      if r == RunManifestName() {
        assert k == at + "/run-evidence-manifest.json";
      } else if k == at + "/run-evidence-manifest.json" {
        assert Under(at, r) == Under(at, RunManifestName());
        UnderInjective(at, r, RunManifestName());
      }
    }
  }

  lemma TailText(at: string, k: string)
    requires StartsWith(k, at + "/")
    ensures k == Under(at, k[|at| + 1..]) && (k[|at| + 1..] == "" <==> k == at + "/")
  {
    assert k == k[..|at| + 1] + k[|at| + 1..];
  }

  lemma PrefixedPaths(bs: seq<Binding>, at: string, k: string)
    ensures k in Paths(PrefixAll(bs, at)) <==> StartsWith(k, at + "/") && k[|at| + 1..] in Paths(bs)
  {
    if k in Paths(PrefixAll(bs, at)) {
      var i :| 0 <= i < |bs| && Paths(PrefixAll(bs, at))[i] == k;
      UnderStarts(at, bs[i].path);
      assert Paths(bs)[i] == bs[i].path;
    }
    if StartsWith(k, at + "/") && k[|at| + 1..] in Paths(bs) {
      TailText(at, k);
      var i :| 0 <= i < |bs| && Paths(bs)[i] == k[|at| + 1..];
      assert Paths(PrefixAll(bs, at))[i] == Under(at, bs[i].path);
    }
  }

  lemma JournalFolder(c: Context, tree: Tree, e: Dependency, ds: seq<string>, k: string)
    requires Inventoried(c, Subtree(tree, e.journalDirectory), ds)
    ensures var at := e.journalDirectory;
            k in JournalDirectories(e, ds) <==>
              || k == RunDirectory(e.reference.owner) || k == Under(RunDirectory(e.reference.owner), "private") || k == at
              || (k in Directories(tree) && StartsWith(k, at + "/") && k != at + "/")
  {
    hide Subtree, RunDirectory, DirectoryInventory.Acceptable;
    var at := e.journalDirectory;
    assert k in UnderAll(at, ds) <==> StartsWith(k, at + "/") && k[|at| + 1..] in ds by { UnderAllMember(at, ds, k); }
    if StartsWith(k, at + "/") {
      var r := k[|at| + 1..];
      TailText(at, k);
      SubtreeAt(tree, at, r);
      assert r in ds <==> r in Elements(ds);
    }
  }

  lemma UnderAllMember(at: string, ds: seq<string>, k: string)
    ensures k in UnderAll(at, ds) <==> StartsWith(k, at + "/") && k[|at| + 1..] in ds
  {
    if k in UnderAll(at, ds) {
      var i :| 0 <= i < |ds| && UnderAll(at, ds)[i] == k;
      UnderStarts(at, ds[i]);
    }
    if StartsWith(k, at + "/") && k[|at| + 1..] in ds {
      TailText(at, k);
      var i :| 0 <= i < |ds| && ds[i] == k[|at| + 1..];
      assert UnderAll(at, ds)[i] == Under(at, ds[i]);
    }
  }

  /** A scheduler journal as it must lie at `at`: three files, seven directories, and at most one more file. */
  ghost predicate ControlsAt(tree: Tree, at: string) {
    && at in tree && tree[at] == Trees.Directory
    && (forall n :: n in {".scheduler.lock", "manifest.json", "analysis-input-inventory.json"} ==>
          Under(at, n) in tree && tree[Under(at, n)].File? && tree[Under(at, n)].links == 1)
    && (forall n :: n in {"activations", "events", "pass-plans", "pass-results", "task-outputs", "task-results",
                          "provider-attempts"} ==>
          Under(at, n) in tree && tree[Under(at, n)] == Trees.Directory)
    && (Under(at, "terminal-report-authority.json") in tree ==>
          tree[Under(at, "terminal-report-authority.json")].File? && tree[Under(at, "terminal-report-authority.json")].links == 1)
    && forall n :: IsName(n) && Under(at, n) in tree ==>
         || n in {".scheduler.lock", "manifest.json", "analysis-input-inventory.json"}
         || n in {"activations", "events", "pass-plans", "pass-results", "task-outputs", "task-results", "provider-attempts"}
         || n == "terminal-report-authority.json"
  }

  lemma LayoutIsControls(tree: Tree, at: string)
    requires ControlLayout(Subtree(tree, at)) && at in tree && tree[at] == Trees.Directory
    ensures ControlsAt(tree, at)
  {
    hide Subtree, Under, ControlFiles, ControlDirectories, TerminalAuthorityName, Listing;
    var journal := Subtree(tree, at);
    ControlTexts();
    forall n | n != ""
      ensures n in Listing(journal, "") <==> IsName(n) && Under(at, n) in tree
      ensures n in journal <==> Under(at, n) in tree
      ensures n in journal ==> journal[n] == tree[Under(at, n)]
    {
      ListingMember(journal, "", n);
      SubtreeAt(tree, at, n);
    }
    forall n | IsName(n) && Under(at, n) in tree
      ensures n in ControlFiles() || n in ControlDirectories() || n == TerminalAuthorityName()
    {
      assert n in Listing(journal, "");
    }
    TerminalListed(journal);
  }

  lemma TerminalListed(journal: Tree)
    ensures TerminalAuthorityName() in Listing(journal, "") <==> TerminalAuthorityName() in journal
  {
    hide Listing;
    ListingMember(journal, "", TerminalAuthorityName());
  }

  lemma ControlTexts()
    ensures ControlFiles() == {".scheduler.lock", "manifest.json", "analysis-input-inventory.json"}
    ensures ControlDirectories() ==
            {"activations", "events", "pass-plans", "pass-results", "task-outputs", "task-results", "provider-attempts"}
    ensures TerminalAuthorityName() == "terminal-report-authority.json"
    ensures "" !in ControlFiles() && "" !in ControlDirectories() && TerminalAuthorityName() != ""
    ensures SchedulerStateName() == "scheduler-state.json"
  {
    if "" in ControlFiles() { ControlNotEmpty(""); }
    if "" in ControlDirectories() { ControlNotEmpty(""); }
  }

  lemma ControlNotEmpty(n: string)
    requires n in ControlFiles() + ControlDirectories()
    ensures n != ""
  {
    assert |".scheduler.lock"| > 0 && |"manifest.json"| > 0 && |"analysis-input-inventory.json"| > 0;
    assert |"activations"| > 0 && |"events"| > 0 && |"pass-plans"| > 0 && |"pass-results"| > 0;
    assert |"task-outputs"| > 0 && |"task-results"| > 0 && |"provider-attempts"| > 0;
  }

  /** With scheduler state in its run, an accepted wrapper holds the journal either in the run or beside it under a
      reference to another run, never both, and the journal has the control layout. */
  lemma AcceptedCustody(c: Context, tree: Tree, d: Descriptor)
    requires WellFormed(tree) && Accepts(c, tree, d)
    requires Under(RunDirectory(d.payload.sourceRunDirectoryName), "scheduler-state.json") in tree
    ensures var x := d.payload.sourceRunDirectoryName;
            var own := Under(RunDirectory(x), "private/scheduler-journal");
            var reference := Under(RunDirectory(x), "private/scheduler-journal-reference.json");
            && (own in tree <==> reference !in tree)
            && (own in tree ==> ControlsAt(tree, own))
            && (reference in tree ==>
                  && tree[reference].File?
                  && var r := c.parseReference(tree[reference].content);
                     && r.Some? && r.value.consumer == x != r.value.owner && IsName(r.value.owner) && |r.value.owner| <= 128
                     && ControlsAt(tree, Under(RunDirectory(r.value.owner), "private/scheduler-journal")))
  {
    hide Accepts, WellFormed, Subtree, Inventoried, DescriptorExact, RunInventory, ManifestExact, Collected, Listing, ControlLayout,
      ContentsMatch, ControlsAt, Runs, Under, IsName, BoundedFile, PublicSubsetName, RunManifestName;
    var x := d.payload.sourceRunDirectoryName;
    var m := AcceptedParts(c, tree, d);
    var runs := Subtree(tree, Runs());
    var run := Subtree(runs, x);
    ControlTexts();
    PlaceTexts();
    SubtreeAt(tree, RunDirectory(x), SchedulerStateName());
    SubtreeAt(tree, RunDirectory(x), JournalPath());
    SubtreeAt(tree, RunDirectory(x), ReferencePath());
    assert SchedulerCustody(c, x, run, SiblingJournal(c, runs, run));
    if JournalPath() in run {
      SubtreeTwice(tree, RunDirectory(x), JournalPath());
      LayoutIsControls(tree, Under(RunDirectory(x), JournalPath()));
    } else {
      var owner := c.parseReference(run[ReferencePath()].content).value.owner;
      var place := Under(owner, JournalPath());
      PlaceNotEmpty(owner);
      SubtreeTwice(tree, Runs(), place);
      SubtreeAt(tree, Runs(), place);
      JournalFromRuns(owner);
      LayoutIsControls(tree, JournalDirectory(owner));
    }
  }

  lemma PlaceTexts()
    ensures JournalPath() == "private/scheduler-journal" != ""
    ensures ReferencePath() == "private/scheduler-journal-reference.json" != ""
  {
  }

  /** The manifest of an accepted wrapper is a small unshared file of few enough artifacts, and every other entry of
      the run is one that collection allows. */
  lemma AcceptedManifest(c: Context, tree: Tree, d: Descriptor) returns (m: Manifest)
    requires WellFormed(tree) && Accepts(c, tree, d)
    ensures var x := d.payload.sourceRunDirectoryName;
            var k := Under(RunDirectory(x), "run-evidence-manifest.json");
            && k in tree && tree[k].File? && tree[k].links == 1 && |tree[k].content| <= 100_000_000
            && c.parseManifest(tree[k].content) == Some(m) && c.semantic(m, Subtree(tree, RunDirectory(x)),
                 SiblingJournal(c, Subtree(tree, "runs"), Subtree(tree, RunDirectory(x))))
            && 1 <= |m.artifacts| <= 100_000 && TotalSize(m.artifacts) <= 4_294_967_296
            && forall r :: r != "" && r != "run-evidence-manifest.json" && Under(RunDirectory(x), r) in tree ==>
                 c.collectable(r, tree[Under(RunDirectory(x), r)] == Trees.Directory)
  {
    hide Accepts, WellFormed, Subtree, Inventoried, DescriptorExact, RunInventory, TotalSize, SortedSet, Paths, Listing,
      ContentsMatch, SchedulerCustody, Under, PublicSubsetName, Ascending, FileBindings;
    var x := d.payload.sourceRunDirectoryName;
    m := AcceptedParts(c, tree, d);
    var runs := Subtree(tree, Runs());
    RunIdBounds(c, runs, x, m);
    assert RunManifestName() == "run-evidence-manifest.json" && Runs() == "runs";
    SubtreeAt(tree, RunDirectory(x), RunManifestName());
    forall r | r != "" && r != "run-evidence-manifest.json" && Under(RunDirectory(x), r) in tree
      ensures c.collectable(r, tree[Under(RunDirectory(x), r)] == Trees.Directory)
    {
      SubtreeAt(tree, RunDirectory(x), r);
      assert EntryAllowed(c, Subtree(runs, x), r);
    }
  }

  // ---------------------------------------------------------------- what an export leaves

  /** A finished export carries the source run entry by entry below `runs/`, with the encoded descriptor beside it,
      and the run was no public subset. */
  lemma ExportedSays(c: Context, runs: Tree, name: string, tree: Tree, d: Descriptor)
    requires SoundContext(c) && WellFormed(runs) && IsDeliveryOf(c, runs, name, tree, d)
    ensures d.payload.sourceRunDirectoryName == name
    ensures "forensic-delivery.json" in tree && tree["forensic-delivery.json"] == Trees.File(c.encodeDescriptor(d), 1)
    ensures name + "/public-evidence-subset-manifest.json" !in runs
    ensures forall r :: r != "" ==>
              && (Under(name, r) in runs <==> Under(RunDirectory(name), r) in tree)
              && (Under(name, r) in runs ==> tree[Under(RunDirectory(name), r)] == runs[Under(name, r)])
  {
    hide SoundContext, WellFormed, Observable, Image, Subtree, DeliveryArtifacts, BindingsOf, Seal, RunDirectory, Under, HasManifest,
      DescriptorName, RunManifestName;
    var run :| Observable(c, runs, name, run) && HasManifest(run) && d == Sealing(run);
    SoundRules(c);
    SealingIs(run);
    SealedPayload(c, runs, name, run);
    ImageRun(c, runs, name, run, d.payload);
    ObservedHasNoSubset(c, runs, name, run);
    ObservedName(c, runs, name, run);
    assert DescriptorName() == "forensic-delivery.json" by { DescriptorText(); }
    forall r | r != ""
      ensures (Under(name, r) in runs <==> Under(RunDirectory(name), r) in tree)
      ensures Under(name, r) in runs ==> tree[Under(RunDirectory(name), r)] == runs[Under(name, r)]
    {
      SubtreeAt(runs, name, r);
      SubtreeAt(Image(d.payload), RunDirectory(name), r);
      NotTheDescriptor(name, r);
    }
  }

  lemma DescriptorText()
    ensures DescriptorName() == "forensic-delivery.json"
  {
  }

  lemma NotTheDescriptor(name: string, r: string)
    ensures Under(RunDirectory(name), r) != DescriptorName()
  {
    assert Under(RunDirectory(name), r)[4] == '/';
  }

  lemma SealingIs(run: Run)
    requires HasManifest(run)
    ensures BindingsOf(DeliveryArtifacts(run), Under(RunDirectory(run.name), RunManifestName())) != []
    ensures Sealing(run) == Seal(run)
  {
    hide BindingsOf, DeliveryArtifacts, Seal;
  }

  lemma ObservedName(c: Context, runs: Tree, name: string, run: Run)
    requires Observable(c, runs, name, run)
    ensures run.name == name && name != ""
  {
    hide RunInventory, Inventoried, JournalObserved, Subtree, RunValid;
    RunNameNotEmpty(c, runs, name, run.manifest);
  }
}
