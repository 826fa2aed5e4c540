/** Two small runs with a retained journal, one that keeps scheduler state and one that does not, in a
    context given outright. They show that what the export theorems ask for can be met, and what happens to
    a file of the run manifest's name in their journals. */
module SmallestDelivery {
  import opened Text
  import opened Trees
  import opened Delivery
  import opened DeliveryVerification
  import opened SourceRun
  import opened DeliveryImage
  import opened PlainDeliveries
  import Tables = Names
  import DirectoryInventory
  import ForensicExport
  import JournalManifest

  // ---------------------------------------------------------------- grafting trees

  /** The tree with another one put in at `p`. */
  function Graft(tree: Tree, p: string, sub: Tree): Tree {
    tree + map k | k in (set r | r in sub.Keys :: Below(p, r)) && IsBelow(p, k) && Relative(p, k) in sub
             :: sub[Relative(p, k)]
  }

  lemma GraftAt(tree: Tree, p: string, sub: Tree, k: string)
    ensures k in Graft(tree, p, sub) <==> k in tree || (IsBelow(p, k) && Relative(p, k) in sub)
    ensures IsBelow(p, k) && Relative(p, k) in sub ==> Graft(tree, p, sub)[k] == sub[Relative(p, k)]
    ensures !IsBelow(p, k) && k in tree ==> Graft(tree, p, sub)[k] == tree[k]
  {
    if IsBelow(p, k) && Relative(p, k) in sub { RelativeBelow(p, k); }
  }

  ghost predicate NothingBelow(tree: Tree, p: string) {
    forall k :: k in tree ==> !IsBelow(p, k)
  }

  lemma GraftSubtree(tree: Tree, p: string, sub: Tree)
    requires NothingBelow(tree, p)
    ensures Subtree(Graft(tree, p, sub), p) == sub
  {
    hide Subtree, Graft, IsBelow;
    var a := Subtree(Graft(tree, p, sub), p);
    forall r ensures (r in a <==> r in sub) && (r in a ==> a[r] == sub[r]) {
      SubtreeAt(Graft(tree, p, sub), p, r);
      BelowRelative(p, r);
      GraftAt(tree, p, sub, Below(p, r));
    }
  }

  /** A graft elsewhere does not show. */
  lemma GraftElsewhere(tree: Tree, p: string, sub: Tree, q: string)
    requires forall k :: IsBelow(p, k) ==> !IsBelow(q, k)
    ensures Subtree(Graft(tree, p, sub), q) == Subtree(tree, q)
  {
    hide Subtree, Graft, IsBelow;
    var a, b := Subtree(Graft(tree, p, sub), q), Subtree(tree, q);
    forall r ensures (r in a <==> r in b) && (r in a ==> a[r] == b[r]) {
      SubtreeAt(Graft(tree, p, sub), q, r);
      SubtreeAt(tree, q, r);
      BelowRelative(q, r);
      GraftAt(tree, p, sub, Below(q, r));
    }
  }

  lemma GraftWellFormed(tree: Tree, p: string, sub: Tree)
    requires WellFormed(tree) && WellFormed(sub) && p != "" && HasParent(tree, p) && NothingBelow(tree, p)
    ensures WellFormed(Graft(tree, p, sub))
  {
    hide Graft, IsBelow, IsChild, Subtree;
    var t := Graft(tree, p, sub);
    GraftAt(tree, p, sub, "");
    GraftSubtree(tree, p, sub);
    forall k | k in t && k != "" ensures HasParent(t, k) {
      GraftAt(tree, p, sub, k);
      if IsBelow(p, k) && k != p {
        RelativeBelow(p, k);
        GraftedParent(t, p, sub, Relative(p, k));
      } else {
        assert HasParent(tree, k);
        var q :| q in tree && tree[q] == Directory && IsChild(q, k);
        GraftAt(tree, p, sub, q);
        assert q in t && t[q] == Directory;
      }
    }
  }

  // ---------------------------------------------------------------- the journal

  function Owned(): Node { File([1], 1) }

  /** A scheduler journal with the control layout and nothing else. */
  function TheJournal(): Tree {
    map n | n in {""} + ControlFiles() + ControlDirectories() :: if n in ControlFiles() then Owned() else Directory
  }

  function ControlBinding(n: string): Binding {
    Binding(n, FileHash([1]), 1)
  }

  function JournalBindings(): seq<Binding> {
    [ControlBinding(".scheduler.lock"), ControlBinding("manifest.json"), ControlBinding("analysis-input-inventory.json")]
  }

  function JournalNames(): seq<string> {
    ["activations", "events", "pass-plans", "pass-results", "task-outputs", "task-results", "provider-attempts"]
  }

  lemma ControlIsName(n: string)
    requires n in ControlFiles() + ControlDirectories()
    ensures IsName(n) && |n| <= 100 && n != "." && n != RunManifestName()
    ensures n in ControlFiles() ==> n !in ControlDirectories()
  {
    hide RunManifestName;
    ControlNames(n);
    if n in ControlFiles() { FileName(n); } else { DirectoryName(n); }
  }

  lemma FileName(n: string)
    requires n in ControlFiles()
    ensures IsName(n) && 13 <= |n| <= 29 && |n| != 17 && n !in ControlDirectories()
  {
    hide ControlDirectories;
    assert n == ".scheduler.lock" || n == "manifest.json" || n == "analysis-input-inventory.json";
    if n in ControlDirectories() { DirectoryName(n); }
  }

  lemma DirectoryName(n: string)
    requires n in ControlDirectories()
    ensures IsName(n) && 6 <= |n| <= 17 && |n| != 13 && |n| != 15
  {
    assert |"activations"| == 11 && |"events"| == 6 && |"pass-plans"| == 10 && |"pass-results"| == 12;
    assert |"task-outputs"| == 12 && |"task-results"| == 12 && |"provider-attempts"| == 17;
  }

  lemma TerminalIsOther()
    ensures TerminalAuthorityName() !in ControlFiles() + ControlDirectories()
  {
    assert |TerminalAuthorityName()| == 30;
    if TerminalAuthorityName() in ControlFiles() { FileName(TerminalAuthorityName()); }
    if TerminalAuthorityName() in ControlDirectories() { DirectoryName(TerminalAuthorityName()); }
  }

  lemma JournalLaidOut()
    ensures ControlLayout(TheJournal()) && WellFormed(TheJournal())
    ensures forall k :: k in TheJournal() ==> |k| <= 100
  {
    hide ControlFiles, ControlDirectories, TerminalAuthorityName, Listing, IsChild, RunManifestName;
    var t := TheJournal();
    var names := ControlFiles() + ControlDirectories();
    forall n | n in names ensures IsName(n) && |n| <= 100 && (n in ControlFiles() ==> n !in ControlDirectories()) {
      ControlIsName(n);
    }
    forall n ensures n in Listing(t, "") <==> n in names { ListingMember(t, "", n); }
    TerminalIsOther();
    assert Listing(t, "") == names;
    assert "" !in ControlFiles();
    forall k | k in t && k != "" ensures HasParent(t, k) {
      ChildName("", k);
      assert "" in t && t[""] == Directory && IsChild("", k);
    }
  }

  lemma JournalDistinct()
    ensures NoDuplicates(Paths(JournalBindings()))
    ensures forall n :: n in Paths(JournalBindings()) <==> n in ControlFiles()
    ensures forall n :: n in JournalNames() <==> n in ControlDirectories()
  {
    var ps := Paths(JournalBindings());
    assert ps == [".scheduler.lock", "manifest.json", "analysis-input-inventory.json"];
    assert |".scheduler.lock"| == 15 && |"manifest.json"| == 13 && |"analysis-input-inventory.json"| == 29;
  }

  lemma SortedCollection(c: Context, tree: Tree, bs: seq<Binding>)
    requires AllAllowed(c, tree) && 1 <= |bs| <= 100 && TotalSize(bs) <= 100
    requires NoDuplicates(Paths(bs)) && Elements(bs) == FileBindings(tree)
    ensures Collected(c, tree, SortBindings(bs))
    ensures |SortBindings(bs)| == |bs| && TotalSize(SortBindings(bs)) == TotalSize(bs)
  {
    hide SortBindings, Sort, TotalSize, FileBindings, AllAllowed;
    SortKeepsCount(bs);
    SortBindingsPaths(bs);
    SortDistinct(Paths(bs));
  }

  lemma {:induction false} OneByteEach(bs: seq<Binding>)
    requires forall b :: b in bs ==> b.size == 1
    ensures TotalSize(bs) == |bs|
    decreases |bs|
  {
    if bs != [] { OneByteEach(bs[1..]); }
  }

  lemma JournalCollects(c: Context)
    requires forall k, d :: c.collectable(k, d)
    ensures Collected(c, TheJournal(), SortBindings(JournalBindings()))
    ensures |SortBindings(JournalBindings())| == 3 && TotalSize(SortBindings(JournalBindings())) == 3
  {
    hide ControlFiles, ControlDirectories, RunManifestName, SortBindings, TotalSize, NoDuplicates;
    var t := TheJournal();
    JournalDistinct();
    OneByteEach(JournalBindings());
    forall n | n in ControlFiles() + ControlDirectories()
      ensures n != RunManifestName() && (n in ControlFiles() ==> n !in ControlDirectories())
    {
      ControlIsName(n);
    }
    assert "" !in ControlFiles() by { if "" in ControlFiles() { FileName(""); } }
    forall b ensures b in Elements(JournalBindings()) <==> b in FileBindings(t) {
      if b in JournalBindings() {
        PathMembers(JournalBindings(), b.path);
        assert Collects(t, b.path) && b == Bind(b.path, t[b.path]);
      }
      if b in FileBindings(t) {
        var k :| k in t && Collects(t, k) && b == Bind(k, t[k]);
        PathMembers(JournalBindings(), k);
      }
    }
    assert Elements(JournalBindings()) == FileBindings(t);
    SortedCollection(c, t, JournalBindings());
  }

  lemma JournalSafe(c: Context, q: string)
    requires (forall n :: c.safe(n) <==> n != ".") && IsDirectory(TheJournal(), q)
    ensures DirectoryInventory.SafeBelow(c.safe, TheJournal(), q)
  {
    hide ControlFiles, ControlDirectories, IsChild, RunManifestName;
    var t := TheJournal();
    forall k | k in t && IsChild(q, k) ensures DirectoryInventory.SafeEntry(c.safe, t, q, k) {
      NameChild(q, k);
      ControlIsName(k);
      ChildName("", k);
      DirectoryInventory.OneParent(q, "", k);
    }
  }

  lemma JournalDirectoryNames()
    ensures Directories(TheJournal()) == Elements(JournalNames()) && |JournalNames()| == 7
  {
    hide ControlFiles, ControlDirectories, RunManifestName;
    JournalDistinct();
    forall n | n in ControlDirectories() ensures n != "" && n !in ControlFiles() {
      ControlIsName(n);
    }
    assert Elements(JournalNames()) == ControlDirectories();
  }

  lemma JournalInventoried(c: Context)
    requires forall n :: c.safe(n) <==> n != "."
    ensures Inventoried(c, TheJournal(), SortedSet(JournalNames()))
    ensures |SortedSet(JournalNames())| <= 7
  {
    hide TheJournal, JournalNames, SortedSet, DirectoryInventory.SafeBelow, Directories, Ascending;
    JournalDirectoryNames();
    SortedSetCorrect(JournalNames());
    SortedSetShorter(JournalNames());
    AscendingSize(SortedSet(JournalNames()));
    forall q | IsDirectory(TheJournal(), q) ensures DirectoryInventory.SafeBelow(c.safe, TheJournal(), q) {
      JournalSafe(c, q);
    }
  }

  // ---------------------------------------------------------------- the run

  function Contents(n: byte): Node { File([n], 1) }

  /** The manifest, the reference, and scheduler state if it is kept. */
  function TheRunTree(state: bool): Tree {
    var t := map["" := Directory, "private" := Directory, ReferencePath() := Contents(3), RunManifestName() := Contents(2)];
    if state then t[SchedulerStateName() := Contents(4)] else t
  }

  function RunBindings(state: bool): seq<Binding> {
    [Bind(ReferencePath(), Contents(3))] + (if state then [Bind(SchedulerStateName(), Contents(4))] else [])
  }

  function TheManifest(state: bool): Manifest {
    Manifest("r", 0, SortBindings(RunBindings(state)))
  }

  function OwnerTree(): Tree {
    Graft(OwnerBase(), JournalPath(), TheJournal())
  }

  /** The directory with both runs. */
  function TheRuns(state: bool): Tree {
    Graft(Graft(map["" := Directory], "r", TheRunTree(state)), "o", OwnerTree())
  }

  function TheReference(): Reference {
    Reference("o", "r", 0)
  }

  function TheRun(state: bool): Run {
    Run(TheManifest(state), "r",
        TheInventory(state), ["private"],
        Some(Journal(TheReference(), SortBindings(JournalBindings()), SortedSet(JournalNames()))))
  }

  function TheDescriptor(state: bool): Option<Descriptor> {
    if ForensicExport.HasManifest(TheRun(state)) then Some(ForensicExport.Sealing(TheRun(state))) else None
  }

  /** A context given outright: names are left alone, each parser reads just the bytes of its own file, and the
      cross-artifact checks pass just this manifest on this run beside a journal. */
  function TheContext(state: bool): Context {
    Context(
      Rules(Tables.Tables(s => Some(s), s => s, s => s, s => false), n => n == "r"),
      n => n != ".", (k, d) => true,
      bytes => if bytes == [2] then Some(TheManifest(state)) else None,
      bytes => if bytes == [3] then Some(TheReference()) else None,
      bytes => if bytes == [7] then TheDescriptor(state) else None,
      d => if TheDescriptor(state) == Some(d) then [7] else [],
      (m, t, j: Option<Tree>) => m == TheManifest(state) && t == TheRunTree(state) && j.Some?)
  }

  lemma FixedLengths()
    ensures |RunManifestName()| == 26 && |SchedulerStateName()| == 20 && |PublicSubsetName()| == 36
    ensures |ReferencePath()| == 40 && |JournalPath()| == 25 && |ReferenceName()| == 32 && |"private"| == 7
  {
  }

  lemma RunShapes()
    ensures IsName(RunManifestName()) && IsName(SchedulerStateName())
  {
  }

  lemma FixedShapes()
    ensures IsName(RunManifestName()) && IsName(SchedulerStateName()) && IsName("private")
    ensures IsName(PublicSubsetName()) && IsName(ReferenceName())
  {
    hide RunManifestName, SchedulerStateName;
    RunShapes();
  }

  lemma ReferenceBesideJournal()
    ensures |ReferencePath()| == 40 && ReferencePath()[25] == '-' && !IsBelow(JournalPath(), ReferencePath())
  {
    assert |JournalPath()| == 25;
  }

  lemma ReferenceShape()
    ensures ReferencePath() == Under("private", ReferenceName())
    ensures |ReferencePath()| == 40 && ReferencePath()[25] == '-' && !IsBelow(JournalPath(), ReferencePath())
  {
    hide JournalPath, IsBelow;
    ReferenceBesideJournal();
  }

  lemma RunNamesDiffer()
    ensures RunManifestName() != SchedulerStateName() && RunManifestName() != "private" && SchedulerStateName() != "private"
    ensures ReferencePath() != RunManifestName() && ReferencePath() != SchedulerStateName() && ReferencePath() != "private"
    ensures ReferencePath() != "" && |ReferencePath()| <= 100 && |RunManifestName()| <= 100 && |SchedulerStateName()| <= 100
    ensures PublicSubsetName() != RunManifestName() && PublicSubsetName() != SchedulerStateName()
    ensures PublicSubsetName() != "private" && PublicSubsetName() != ReferencePath()
    ensures RunManifestName() != "." && SchedulerStateName() != "." && ReferenceName() != "."
    ensures ReferencePath() != JournalPath() && RunManifestName() != JournalPath() && SchedulerStateName() != JournalPath()
    ensures JournalPath() != "private"
  {
    hide RunManifestName, SchedulerStateName, ReferencePath, ReferenceName, PublicSubsetName, JournalPath;
    FixedLengths();
  }

  function ReferenceName(): string { "scheduler-journal-reference.json" }

  lemma RunTreeWellFormed(state: bool)
    ensures WellFormed(TheRunTree(state))
    ensures forall k :: k in TheRunTree(state) ==> |k| <= 100
  {
    hide RunManifestName, SchedulerStateName, ReferencePath, ReferenceName, PublicSubsetName, JournalPath;
    RunNamesDiffer();
    FixedShapes();
    ReferenceShape();
    var t := TheRunTree(state);
    ChildName("", RunManifestName());
    ChildName("", SchedulerStateName());
    ChildName("", "private");
    ChildName("private", ReferenceName());
    forall k | k in t && k != "" ensures HasParent(t, k) {
      if k == ReferencePath() {
        assert "private" in t && t["private"] == Directory && IsChild("private", k);
      } else {
        assert "" in t && t[""] == Directory && IsChild("", k);
      }
    }
  }

  lemma Separate(k: string)
    ensures IsBelow("o", k) ==> !IsBelow("r", k)
  {
    assert IsBelow("o", k) ==> k[0] == 'o' by { if IsBelow("o", k) && k != "o" { assert k[..2][0] == 'o'; } }
    assert IsBelow("r", k) ==> k[0] == 'r' by { if IsBelow("r", k) && k != "r" { assert k[..2][0] == 'r'; } }
  }

  function OwnerBase(): Tree {
    map["" := Directory, "private" := Directory]
  }

  lemma JournalPathShape()
    ensures JournalPath() == Under("private", "scheduler-journal") && JournalPath() != ""
    ensures !IsBelow(JournalPath(), "") && !IsBelow(JournalPath(), "private")
  {
    assert |JournalPath()| == 25;
  }

  lemma OwnerBaseShape()
    ensures WellFormed(OwnerBase()) && HasParent(OwnerBase(), JournalPath()) && NothingBelow(OwnerBase(), JournalPath())
  {
    hide JournalPath, IsChild, IsBelow;
    var base := OwnerBase();
    JournalPathShape();
    assert IsName("private") && IsName("scheduler-journal");
    ChildName("", "private");
    ChildName("private", "scheduler-journal");
    assert HasParent(base, "private") by { assert "" in base && base[""] == Directory && IsChild("", "private"); }
    assert HasParent(base, JournalPath()) by {
      assert "private" in base && base["private"] == Directory && IsChild("private", JournalPath());
    }
  }

  lemma OwnerTreeShape()
    ensures WellFormed(OwnerTree()) && Subtree(OwnerTree(), JournalPath()) == TheJournal()
    ensures IsDirectory(OwnerTree(), JournalPath())
  {
    hide Graft, TheJournal, Subtree, JournalPath, IsChild, OwnerBase, WellFormed, ControlLayout, HasParent, NothingBelow, IsBelow;
    OwnerBaseShape();
    JournalLaidOut();
    RootIsDirectory(TheJournal());
    JournalPathNotEmpty();
    GraftSubtree(OwnerBase(), JournalPath(), TheJournal());
    GraftWellFormed(OwnerBase(), JournalPath(), TheJournal());
    GraftAt(OwnerBase(), JournalPath(), TheJournal(), JournalPath());
    BelowRelative(JournalPath(), "");
  }

  lemma JournalPathNotEmpty()
    ensures JournalPath() != ""
  {
  }

  /** What the directory with both runs holds. */
  lemma TheRunsShape(state: bool)
    ensures WellFormed(TheRuns(state)) && Subtree(TheRuns(state), "r") == TheRunTree(state)
    ensures IsDirectory(TheRuns(state), "r") && IsDirectory(TheRuns(state), Under("o", JournalPath()))
    ensures Subtree(TheRuns(state), Under("o", JournalPath())) == TheJournal()
  {
    hide Graft, TheJournal, TheRunTree, OwnerTree, Subtree, JournalPath, IsChild, IsBelow;
    var base: Tree := map["" := Directory];
    var first := Graft(base, "r", TheRunTree(state));
    RunTreeWellFormed(state);
    OwnerTreeShape();
    RootIsDirectory(TheRunTree(state));
    RootIsDirectory(OwnerTree());
    ChildName("", "r");
    ChildName("", "o");
    assert WellFormed(base);
    assert HasParent(base, "r") by { assert "" in base && base[""] == Directory && IsChild("", "r"); }
    RootsApart();
    GraftSubtree(base, "r", TheRunTree(state));
    GraftWellFormed(base, "r", TheRunTree(state));
    forall k ensures IsBelow("o", k) ==> !IsBelow("r", k) { Separate(k); }
    forall k | k in first ensures !IsBelow("o", k) { GraftAt(base, "r", TheRunTree(state), k); }
    assert HasParent(first, "o") by { assert "" in first && first[""] == Directory && IsChild("", "o") by { RootIsDirectory(first); } }
    GraftSubtree(first, "o", OwnerTree());
    GraftWellFormed(first, "o", OwnerTree());
    GraftElsewhere(first, "o", OwnerTree(), "r");
    var t := TheRuns(state);
    JournalPathNotEmpty();
    SubtreeTwice(t, "o", JournalPath());
    SubtreeAt(t, "r", "");
    SubtreeAt(t, "o", JournalPath());
  }

  lemma RootsApart()
    ensures !IsBelow("r", "") && !IsBelow("o", "")
  {
  }

  // ---------------------------------------------------------------- the run can be exported

  lemma ContextPlain(state: bool)
    ensures Plain(TheContext(state).rules.tables)
    ensures forall n :: TheContext(state).rules.safeRunName(n) <==> n == "r"
    ensures forall k, d :: TheContext(state).collectable(k, d)
    ensures forall n :: TheContext(state).safe(n) <==> n != "."
  {
    hide TheManifest, TheDescriptor, TheRunTree;
  }

  lemma ContextSound(state: bool)
    ensures SoundContext(TheContext(state)) && Plain(TheContext(state).rules.tables)
    ensures TheContext(state).rules.safeRunName("r") && TheContext(state).safe("o")
    ensures forall k, d :: TheContext(state).collectable(k, d)
    ensures forall n :: TheContext(state).safe(n) <==> n != "."
  {
    hide TheContext, Runs, DescriptorName, MarkerName;
    ContextPlain(state);
    TopNames();
    FixedNames("o");
    DescriptorNotDot();
    assert Runs() != "." && MarkerName() != "." by { NotDots(); }
  }

  lemma ContextReads(state: bool)
    ensures TheContext(state).parseManifest([2]) == Some(TheManifest(state))
    ensures TheContext(state).parseReference([3]) == Some(TheReference())
    ensures forall m, t, j ::
              TheContext(state).semantic(m, t, j) <==> m == TheManifest(state) && t == TheRunTree(state) && j.Some?
    ensures TheContext(state).rules.safeRunName("r")
  {
    hide TheManifest, TheDescriptor, TheRunTree;
  }

  lemma ContextEncodes(state: bool, d: Descriptor)
    requires TheDescriptor(state) == Some(d)
    ensures TheContext(state).encodeDescriptor(d) == [7] && RoundTrips(TheContext(state), d)
  {
    hide TheManifest, TheDescriptor;
  }

  lemma NotDots()
    ensures Runs() != "." && MarkerName() != "."
  {
    assert |Runs()| > 1 && |MarkerName()| > 1;
  }

  lemma RunBindingFacts(state: bool)
    ensures Paths(RunBindings(state)) == [ReferencePath()] + (if state then [SchedulerStateName()] else [])
    ensures NoDuplicates(Paths(RunBindings(state))) && 1 <= |RunBindings(state)| <= 2
    ensures TotalSize(RunBindings(state)) == |RunBindings(state)|
  {
    hide SchedulerStateName, ReferencePath, TotalSize;
    RunNamesDiffer();
    OneByteEach(RunBindings(state));
  }

  lemma RunFiles(state: bool)
    ensures Elements(RunBindings(state)) == FileBindings(TheRunTree(state))
  {
    hide RunManifestName, SchedulerStateName, ReferencePath;
    var t, bs := TheRunTree(state), RunBindings(state);
    RunNamesDiffer();
    forall b ensures b in Elements(bs) <==> b in FileBindings(t) {
      if b in bs { assert Collects(t, b.path) && b == Bind(b.path, t[b.path]); }
      if b in FileBindings(t) { var k :| k in t && Collects(t, k) && b == Bind(k, t[k]); }
    }
  }

  lemma RunAllowed(state: bool)
    ensures AllAllowed(TheContext(state), TheRunTree(state))
  {
    hide RunManifestName, SchedulerStateName, ReferencePath, TheContext;
    ContextSound(state);
  }

  lemma RunCollects(state: bool)
    ensures Collected(TheContext(state), TheRunTree(state), TheManifest(state).artifacts)
    ensures 1 <= |TheManifest(state).artifacts| <= 2
    ensures TotalSize(TheManifest(state).artifacts) == |TheManifest(state).artifacts|
    ensures forall p :: p in Paths(TheManifest(state).artifacts) <==> p in Paths(RunBindings(state))
  {
    hide RunManifestName, SchedulerStateName, ReferencePath, SortBindings, TotalSize, Sort, TheContext, TheRunTree,
      RunBindings, NoDuplicates, FileBindings, AllAllowed, Collected, Paths;
    var bs := RunBindings(state);
    RunBindingFacts(state);
    RunFiles(state);
    RunAllowed(state);
    SortedCollection(TheContext(state), TheRunTree(state), bs);
    SortBindingsPaths(bs);
    SortDistinct(Paths(bs));
    forall p ensures p in Paths(SortBindings(bs)) <==> p in Paths(bs) {
      assert p in Paths(SortBindings(bs)) <==> p in Elements(Paths(SortBindings(bs)));
      assert p in Paths(bs) <==> p in Elements(Paths(bs));
    }
  }

  lemma RunInventoried(state: bool)
    ensures Inventoried(TheContext(state), TheRunTree(state), ["private"])
  {
    hide RunManifestName, SchedulerStateName, ReferencePath, ReferenceName, JournalPath, PublicSubsetName, TheManifest,
      TheDescriptor, IsChild;
    var c, t := TheContext(state), TheRunTree(state);
    RunNamesDiffer();
    FixedShapes();
    ReferenceShape();
    assert Directories(t) == {"private"} == Elements(["private"]);
    ChildName("private", ReferenceName());
    forall q | q in t && t[q] == Directory ensures DirectoryInventory.SafeBelow(c.safe, t, q) {
      forall k | k in t && IsChild(q, k) ensures DirectoryInventory.SafeEntry(c.safe, t, q, k) {
        NameChild(q, k);
        RunEntry(state, q, k);
      }
    }
  }

  lemma RunEntry(state: bool, q: string, k: string)
    requires k in TheRunTree(state) && IsChild(q, k)
    ensures NameIn(q, k) != "." && |k| <= 100 && k != ""
  {
    hide RunManifestName, SchedulerStateName, ReferencePath, ReferenceName, JournalPath, PublicSubsetName, IsChild;
    RunNamesDiffer();
    FixedShapes();
    ReferenceShape();
    RunTreeWellFormed(state);
    NameChild(q, k);
    if k == ReferencePath() {
      ChildName("private", ReferenceName());
      DirectoryInventory.OneParent(q, "private", k);
    } else {
      ChildName("", k);
      DirectoryInventory.OneParent(q, "", k);
    }
  }

  lemma TheCustody(state: bool)
    ensures SiblingJournal(TheContext(state), TheRuns(state), TheRunTree(state)) == Some(TheJournal())
    ensures SchedulerCustody(TheContext(state), "r", TheRunTree(state), Some(TheJournal()))
  {
    hide RunManifestName, SchedulerStateName, ReferencePath, JournalPath, PublicSubsetName, TheJournal, TheRuns, Subtree,
      ControlLayout, TheManifest, TheDescriptor;
    RunNamesDiffer();
    TheRunsShape(state);
    JournalLaidOut();
  }

  function TheInventory(state: bool): seq<Binding> {
    SortBindings(TheManifest(state).artifacts + [Bind(RunManifestName(), Contents(2))])
  }

  lemma InventoryFacts(state: bool)
    ensures ReferencePath() in Paths(TheInventory(state))
    ensures 2 <= |TheInventory(state)| <= 3 && 1 <= TotalSize(TheInventory(state)) <= 3
  {
    hide RunManifestName, SchedulerStateName, ReferencePath, SortBindings, TotalSize, TheManifest, Collected, TheContext,
      RunBindings, NoDuplicates, Sort, TheRunTree;
    var artifacts := TheManifest(state).artifacts;
    var own := Bind(RunManifestName(), Contents(2));
    var all := artifacts + [own];
    RunCollects(state);
    RunBindingFacts(state);
    SortKeepsCount(all);
    TotalSizeAppend(artifacts, [own]);
    OneSize(own);
    SortBindingsPaths(all);
    PathMembers(artifacts, ReferencePath());
    var b :| b in artifacts && b.path == ReferencePath();
    assert b in Elements(all);
    PathMembers(SortBindings(all), ReferencePath());
  }

  lemma RunManifestHeld(state: bool)
    ensures BoundedFile(TheRunTree(state), RunManifestName())
    ensures RunInventory(TheManifest(state), TheRunTree(state)) == TheInventory(state)
    ensures PublicSubsetName() !in Listing(TheRunTree(state), "")
    ensures TheRunTree(state)[RunManifestName()].content == [2]
  {
    hide RunManifestName, SchedulerStateName, ReferencePath, PublicSubsetName, SortBindings, TheManifest, Listing;
    RunNamesDiffer();
    FixedShapes();
    ListingMember(TheRunTree(state), "", PublicSubsetName());
    FlatChild(PublicSubsetName());
    assert TheRunTree(state)[RunManifestName()] == Contents(2);
  }

  lemma TheManifestExact(state: bool)
    ensures ManifestExact(TheManifest(state))
  {
    hide RunManifestName, SchedulerStateName, ReferencePath, SortBindings, TotalSize, Collected, TheContext,
      RunBindings, SortedSet, TheRunTree, NoDuplicates, Paths;
    var artifacts := TheManifest(state).artifacts;
    RunCollects(state);
    RunBindingFacts(state);
    RunNamesDiffer();
    CollectedAscends(TheContext(state), TheRunTree(state), artifacts);
    IsSortedSet(Paths(artifacts));
    assert RunManifestName() !in Paths(RunBindings(state));
  }

  lemma TheRunValid(state: bool)
    ensures RunValid(TheContext(state), TheRuns(state), "r", TheManifest(state))
  {
    hide RunManifestName, TheRuns, Subtree, Collected, SiblingJournal, SchedulerCustody, TheContext, TheManifest,
      TheRunTree, ManifestExact, Listing, TheInventory, RunInventory, TotalSize, PublicSubsetName;
    TheRunsShape(state);
    RunCollects(state);
    TheCustody(state);
    RunManifestHeld(state);
    InventoryFacts(state);
    TheManifestExact(state);
    ContextReads(state);
  }

  lemma CollectedAscends(c: Context, t: Tree, bs: seq<Binding>)
    requires Collected(c, t, bs)
    ensures Ascending(Paths(bs))
  {
  }

  lemma TheReferenceHeld(state: bool)
    ensures BoundedFile(TheRunTree(state), ReferencePath()) && ReferenceExact(TheReference())
    ensures TheRunTree(state)[ReferencePath()].content == [3]
  {
    hide RunManifestName, SchedulerStateName, ReferencePath;
    RunNamesDiffer();
  }

  lemma TheJournalObserved(state: bool)
    ensures JournalObserved(TheContext(state), TheRuns(state), "r",
              Journal(TheReference(), SortBindings(JournalBindings()), SortedSet(JournalNames())))
  {
    hide ReferencePath, JournalPath, TheJournal, TheRuns, Subtree, Collected, SortBindings, Inventoried, SortedSet,
      JournalNames, JournalBindings, TheContext, TheRunTree, BoundedFile, ReferenceExact;
    ContextSound(state);
    TheRunsShape(state);
    JournalCollects(TheContext(state));
    JournalInventoried(TheContext(state));
    TheReferenceHeld(state);
    ReferenceIsFile(state);
    ContextReads(state);
  }

  lemma TheRunObservable(state: bool)
    ensures Observable(TheContext(state), TheRuns(state), "r", TheRun(state))
  {
    hide ReferencePath, TheRuns, Subtree, SortBindings, RunValid, RunInventory, Inventoried, SortedSet, JournalNames,
      JournalBindings, Paths, TheContext, TheManifest, TheInventory, TheRunTree, JournalObserved, BoundedFile, RunManifestName,
      JournalPath, TheJournal, Listing, PublicSubsetName, SoundContext, Plain;
    ContextSound(state);
    TheRunsShape(state);
    TheRunValid(state);
    RunManifestHeld(state);
    InventoryFacts(state);
    RunInventoried(state);
    TheJournalObserved(state);
  }

  lemma ReferenceIsFile(state: bool)
    ensures ReferencePath() in TheRunTree(state) && TheRunTree(state)[ReferencePath()].File?
  {
    hide RunManifestName, SchedulerStateName, ReferencePath;
    RunNamesDiffer();
  }

  lemma TheRunDeliverable(state: bool)
    ensures Shippable(TheContext(state), TheRuns(state), "r", TheRun(state))
    ensures Deliverable(TheContext(state).rules, TheRun(state))
    ensures ForensicExport.HasManifest(TheRun(state))
    ensures Payloads(TheRun(state), ForensicExport.Sealing(TheRun(state)).payload)
  {
    hide RunManifestName, SchedulerStateName, ReferencePath, JournalPath, TheJournal, TheRuns, Subtree, TheContext, TheRun,
      Observable, SortBindings, TotalSize, SortedSet, Payloads, Seal, DeliveryArtifacts, DeliveryDirectories, SoundContext,
      WithinBounds, PortablePaths.Portable, Plain, DescriptorName, Paths, BindingsOf, Under, RunDirectory, DescribesRun, WellFormed;
    var c, runs, run := TheContext(state), TheRuns(state), TheRun(state);
    ContextSound(state);
    TheRunsShape(state);
    TheRunObservable(state);
    ForensicExport.SoundRules(c);
    SealedPayload(c, runs, "r", run);
    var p := ForensicExport.Sealing(run).payload;
    TheCounts(state);
    SmallIsWithinBounds(c, runs, "r", run);
    forall k | k in Image(p) ensures |k| <= MAX_PATH_LENGTH {
      RunTreeWellFormed(state);
      JournalLaidOut();
      TheJournalIs(state);
      ShortImage(c, runs, "r", run, p, k);
    }
    PlainIsPortable(c, runs, "r", run, p);
    PayloadFields(run, p);
  }

  lemma PayloadFields(run: Run, p: Payload)
    requires Payloads(run, p)
    ensures p.artifacts == DeliveryArtifacts(run) && p.directories == DeliveryDirectories(run)
  {
    hide DeliveryArtifacts, DeliveryDirectories;
  }

  lemma TheJournalIs(state: bool)
    ensures TheRun(state).journal.Some? && SourceJournal(TheRuns(state), TheRun(state).journal.value) == TheJournal()
  {
    hide TheRuns, TheJournal, Subtree, JournalPath, SortBindings, SortedSet, JournalNames, JournalBindings;
    TheRunsShape(state);
  }

  lemma TheCounts(state: bool)
    ensures var run := TheRun(state);
            && run.journal.Some?
            && 2 <= |run.inventory| <= 100 && 1 <= TotalSize(run.inventory) <= 100 && |run.directories| <= 100
            && 1 <= |run.journal.value.artifacts| <= 100 && 1 <= TotalSize(run.journal.value.artifacts) <= 100
            && |run.journal.value.directories| <= 100
  {
    hide SortBindings, SortedSet, JournalNames, JournalBindings, TotalSize, RunBindings, TheManifest, TheContext,
      TheInventory, Collected, Inventoried;
    InventoryFacts(state);
    ContextSound(state);
    JournalCollects(TheContext(state));
    JournalInventoried(TheContext(state));
  }

  /** Both runs can be exported: nothing is assumed. */
  lemma SmallestRunExportable(state: bool)
    ensures WellFormed(TheRuns(state)) && SoundContext(TheContext(state))
    ensures Exportable(TheContext(state), TheRuns(state), "r", TheRun(state))
    ensures ForensicExport.HasManifest(TheRun(state))
    ensures RoundTrips(TheContext(state), ForensicExport.Sealing(TheRun(state)))
  {
    hide RunManifestName, TheRuns, Subtree, TheRun, Observable, Seal, DeliveryArtifacts, SoundContext, Deliverable,
      BindingsOf, Under, RunDirectory, WellFormed, Payloads, Plain, TheManifest, DeliveredJournal, ForensicExport.Sealing,
      TheContext, RoundTrips, Shippable, ForensicExport.HasManifest;
    ContextSound(state);
    TheRunsShape(state);
    TheRunObservable(state);
    TheRunDeliverable(state);
    HasManifestMeans(TheRun(state));
    ContextReads(state);
    TheRunIs(state);
    ContextEncodes(state, ForensicExport.Sealing(TheRun(state)));
  }

  lemma TheRunIs(state: bool)
    ensures TheRun(state).manifest == TheManifest(state) && DeliveredJournal(TheRuns(state), TheRun(state)).Some?
  {
    hide TheManifest, TheInventory, TheRuns, SourceJournal, Trimmed, SortBindings, SortedSet, JournalBindings, JournalNames;
  }

  lemma HasManifestMeans(run: Run)
    requires ForensicExport.HasManifest(run)
    ensures BindingsOf(DeliveryArtifacts(run), Under(RunDirectory(run.name), RunManifestName())) != []
    ensures ForensicExport.Sealing(run) == Seal(run)
  {
    hide BindingsOf, DeliveryArtifacts, Under, RunDirectory, RunManifestName, Seal;
  }

  // ---------------------------------------------------------------- a file the manifest does not bind

  /** The finished wrapper. */
  ghost function TheWrapper(state: bool): Tree
    requires ForensicExport.HasManifest(TheRun(state))
  {
    Delivered(TheContext(state), ForensicExport.Sealing(TheRun(state)))
  }

  /** The path of a file of the run manifest's name at the top of the delivered journal. */
  function ExtraPath(): string {
    Under(JournalDirectory("o"), RunManifestName())
  }

  lemma WrapperAccepted(state: bool)
    ensures ForensicExport.HasManifest(TheRun(state))
    ensures WellFormed(TheWrapper(state)) && Accepts(TheContext(state), TheWrapper(state), ForensicExport.Sealing(TheRun(state)))
  {
    hide TheRuns, TheRun, TheContext, SoundContext, Exportable, WellFormed, Accepts, Delivered, ForensicExport.Sealing,
      BindingsOf, DeliveryArtifacts, Seal, ForensicExport.HasManifest;
    SmallestRunExportable(state);
    HasManifestMeans(TheRun(state));
    DeliveredAccepted(TheContext(state), TheRuns(state), "r", TheRun(state));
  }

  lemma TheDependency(state: bool)
    ensures ForensicExport.HasManifest(TheRun(state))
    ensures var p := ForensicExport.Sealing(TheRun(state)).payload;
            && |p.dependencies| == 1 && p.dependencies[0].journalDirectory == JournalDirectory("o")
            && p.primaryRunDirectory == RunDirectory("r")
  {
    hide TheRuns, TheContext, SortBindings, DeliveryArtifacts, DeliveryDirectories, BindingsOf, Seal, ReferencePath,
      JournalDirectory, RunDirectory, WellFormed, Observable, Sound, Deliverable, SortedSet, JournalNames, JournalBindings,
      TheInventory, TheManifest, Dependencies, Observed, ForensicExport.Sealing, ForensicExport.HasManifest;
    TheRunDeliverable(state);
    JournalDependency(TheContext(state), TheRuns(state), "r", TheRun(state));
  }

  lemma WrapperHolds(state: bool)
    ensures ForensicExport.HasManifest(TheRun(state))
    ensures ExtraPath() !in TheWrapper(state)
    ensures KeepsState(TheWrapper(state), ForensicExport.Sealing(TheRun(state)).payload) <==> state
  {
    hide TheRuns, TheContext, JournalDirectory, RunDirectory, Subtree, Image, Shippable, Payloads, Deliverable, TheRun,
      DescriptorName, RunManifestName, SchedulerStateName, ReferencePath, TheJournal, Trimmed, SourceJournal, TheRunTree,
      ForensicExport.Sealing, ForensicExport.HasManifest, ControlLayout, WellFormed;
    TheRunDeliverable(state);
    TheDependency(state);
    TheRunsShape(state);
    TheJournalIs(state);
    JournalLaidOut();
    var c, runs, run := TheContext(state), TheRuns(state), TheRun(state);
    var p := ForensicExport.Sealing(run).payload;
    TheOwner(state);
    ImageRun(c, runs, "r", run, p);
    ImageJournal(c, runs, "r", run, p);
    LayoutHasNoManifest(TheJournal());
    LayoutUntrimmed(TheJournal());
    SubtreeAt(Image(p), JournalDirectory("o"), RunManifestName());
    SubtreeAt(Image(p), RunDirectory("r"), SchedulerStateName());
    StateIn(state);
    DescriptorElsewhere();
  }

  lemma TheOwner(state: bool)
    ensures TheRun(state).journal.Some? && TheRun(state).journal.value.reference.owner == "o"
  {
    hide SortBindings, SortedSet, JournalNames, JournalBindings, TheInventory, TheManifest;
  }

  lemma StateIn(state: bool)
    ensures SchedulerStateName() in TheRunTree(state) <==> state
    ensures SchedulerStateName() != "" && RunManifestName() != ""
  {
    hide SchedulerStateName, RunManifestName, ReferencePath;
    RunNamesDiffer();
    FixedLengths();
  }

  lemma DescriptorElsewhere()
    ensures DescriptorName() != ExtraPath() && DescriptorName() != Under(RunDirectory("r"), SchedulerStateName())
  {
    TopNames();
    assert ExtraPath()[4] == '/' && Under(RunDirectory("r"), SchedulerStateName())[4] == '/';
  }

  lemma ExtraPathShort()
    ensures |ExtraPath()| <= MAX_PATH_LENGTH && RunManifestName() != "."
  {
  }

  /** A new file hides no journal. */
  lemma StillBeside(c: Context, tree: Tree, k: string, content: Bytes, run: Tree)
    requires k !in tree && SiblingJournal(c, Subtree(tree, Runs()), run).Some?
    ensures SiblingJournal(c, Subtree(JournalManifest.WithFile(tree, k, content), Runs()), run).Some?
  {
    hide Subtree, Runs, JournalPath, ReferencePath, Under;
    var place := Under(c.parseReference(run[ReferencePath()].content).value.owner, JournalPath());
    SubtreeAt(tree, Runs(), place);
    SubtreeAt(JournalManifest.WithFile(tree, k, content), Runs(), place);
  }

  /** A concrete wrapper with an unbound file at the top of its journal: accepted when the run keeps no
      scheduler state, and refused when it does. */
  lemma UnboundFileAccepted(state: bool, content: Bytes)
    ensures ForensicExport.HasManifest(TheRun(state))
    ensures var t := JournalManifest.WithFile(TheWrapper(state), ExtraPath(), content);
            var d := ForensicExport.Sealing(TheRun(state));
            && (Accepts(TheContext(state), t, d) <==> !state)
            && ExtraPath() in Files(t) && ExtraPath() !in Paths(d.payload.artifacts) && ExtraPath() != DescriptorName()
  {
    hide TheRuns, TheContext, JournalDirectory, RunDirectory, Subtree, TheRun, Accepts, WellFormed, TheWrapper, Runs,
      DescriptorName, RunManifestName, SiblingJournal, ForensicExport.Sealing, ForensicExport.HasManifest, SoundContext,
      KeepsState, Plain, TheManifest, ContentsMatch, Placed, Referenced, Inventoried;
    WrapperAccepted(state);
    TheDependency(state);
    WrapperHolds(state);
    ContextSound(state);
    ContextReads(state);
    ExtraPathShort();
    DescriptorElsewhere();
    var d := ForensicExport.Sealing(TheRun(state));
    forall m | TheContext(state).semantic(m, Subtree(TheWrapper(state), d.payload.primaryRunDirectory),
                 SiblingJournal(TheContext(state), Subtree(TheWrapper(state), Runs()),
                                Subtree(TheWrapper(state), d.payload.primaryRunDirectory)))
      ensures SiblingJournal(TheContext(state),
                Subtree(JournalManifest.WithFile(TheWrapper(state), ExtraPath(), content), Runs()),
                Subtree(TheWrapper(state), d.payload.primaryRunDirectory)).Some?
    {
      StillBeside(TheContext(state), TheWrapper(state), ExtraPath(), content,
                  Subtree(TheWrapper(state), d.payload.primaryRunDirectory));
    }
    JournalManifest.JournalManifestUnseenIff(TheContext(state), TheWrapper(state), d, content);
    var m := AcceptedContents(TheContext(state), TheWrapper(state), d);
    assert PassedOver(d.payload, ExtraPath());
    PassedOverUnbound(TheContext(state), TheWrapper(state), d.payload, m, ExtraPath());
  }
}
