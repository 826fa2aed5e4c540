/** A file with the run manifest's name at the top of a retained journal is neither collected nor
    listed. Only the scheduler's custody check looks there, and it is made only for runs that keep
    scheduler state. */
module JournalManifest {
  import opened Text
  import opened Trees
  import opened Delivery
  import opened DeliveryVerification
  import DirectoryInventory

  /** The tree with one more unshared file. */
  function WithFile(tree: Tree, k: string, content: Bytes): Tree {
    tree[k := File(content, 1)]
  }

  lemma OtherListing(tree: Tree, p: string, k: string, content: Bytes, q: string)
    requires IsChild(p, k) && p != q
    ensures Listing(WithFile(tree, k, content), q) == Listing(tree, q)
  {
    hide IsChild;
    forall x | x in WithFile(tree, k, content).Keys && IsChild(q, x) ensures x in tree.Keys {
      if x == k { DirectoryInventory.OneParent(p, q, k); }
    }
    var a, b := Listing(WithFile(tree, k, content), q), Listing(tree, q);
    forall n ensures n in a <==> n in b {
      if n in a {
        var x :| x in WithFile(tree, k, content).Keys && IsChild(q, x) && NameIn(q, x) == n;
        assert x in tree.Keys;
      }
    }
  }

  lemma OtherSubtree(tree: Tree, k: string, content: Bytes, q: string)
    requires k !in tree && !IsBelow(q, k)
    ensures Subtree(WithFile(tree, k, content), q) == Subtree(tree, q)
  {
    hide IsBelow;
    var a, b := Subtree(WithFile(tree, k, content), q), Subtree(tree, q);
    forall r ensures (r in a <==> r in b) && (r in a ==> a[r] == b[r]) {
      SubtreeAt(WithFile(tree, k, content), q, r);
      SubtreeAt(tree, q, r);
      BelowRelative(q, r);
    }
  }

  lemma ExtendedSubtree(tree: Tree, p: string, n: string, content: Bytes)
    requires n != ""
    ensures Subtree(WithFile(tree, Under(p, n), content), p) == WithFile(Subtree(tree, p), n, content)
  {
    var k := Under(p, n);
    var a, b := Subtree(WithFile(tree, k, content), p), WithFile(Subtree(tree, p), n, content);
    forall r ensures (r in a <==> r in b) && (r in a ==> a[r] == b[r]) {
      SubtreeAt(WithFile(tree, k, content), p, r);
      SubtreeAt(tree, p, r);
      if Below(p, r) == k {
        BelowRelative(p, r);
        BelowRelative(p, n);
        assert r == n;
      }
    }
  }

  lemma StaysWellFormed(tree: Tree, p: string, k: string, content: Bytes)
    requires WellFormed(tree) && IsDirectory(tree, p) && IsChild(p, k) && k !in tree
    ensures WellFormed(WithFile(tree, k, content))
  {
    hide IsChild;
    var t := WithFile(tree, k, content);
    NameChild(p, k);
    forall x | x in t && x != "" ensures HasParent(t, x) {
      if x == k {
        assert p in t && t[p] == Directory;
      } else {
        var q :| q in tree && tree[q] == Directory && IsChild(q, x);
        assert q in t && t[q] == Directory;
      }
    }
  }

  lemma StaysInventoried(c: Context, tree: Tree, p: string, k: string, content: Bytes, ds: seq<string>)
    requires Inventoried(c, tree, ds) && IsChild(p, k) && k !in tree
    requires c.safe(NameIn(p, k)) && |k| <= MAX_PATH_LENGTH
    ensures Inventoried(c, WithFile(tree, k, content), ds)
  {
    hide IsChild;
    var t := WithFile(tree, k, content);
    assert Directories(t) == Directories(tree);
    NameChild(p, k);
    forall q | q in t && t[q] == Directory ensures DirectoryInventory.SafeBelow(c.safe, t, q) {
      assert DirectoryInventory.SafeBelow(c.safe, tree, q);
      forall x | x in t && IsChild(q, x) ensures DirectoryInventory.SafeEntry(c.safe, t, q, x) {
        if x == k {
          DirectoryInventory.OneParent(p, q, k);
        } else {
          assert DirectoryInventory.SafeEntry(c.safe, tree, q, x);
        }
      }
    }
  }

  lemma StaysCollected(c: Context, tree: Tree, content: Bytes, bs: seq<Binding>)
    requires Collected(c, tree, bs) && RunManifestName() !in tree
    ensures Collected(c, WithFile(tree, RunManifestName(), content), bs)
  {
    var t := WithFile(tree, RunManifestName(), content);
    forall b ensures b in FileBindings(t) <==> b in FileBindings(tree) {
      if b in FileBindings(t) {
        var k :| k in t && Collects(t, k) && b == Bind(k, t[k]);
        assert Collects(tree, k);
      }
      if b in FileBindings(tree) {
        var k :| k in tree && Collects(tree, k) && b == Bind(k, tree[k]);
        assert Collects(t, k);
      }
    }
    assert FileBindings(t) == FileBindings(tree);
    forall k | k in t && k != "" && k != RunManifestName() ensures EntryAllowed(c, t, k) {
      assert EntryAllowed(c, tree, k);
    }
  }

  /** The journal's own path and its place in the wrapper. */
  lemma JournalPlace(owner: string, name: string)
    requires IsName(owner) && IsName(name) && owner != name
    ensures var jd := JournalDirectory(owner);
            var k := Under(jd, RunManifestName());
            && jd != "" && jd != Runs() && jd != RunDirectory(owner) && jd != Under(RunDirectory(owner), "private")
            && IsChild(jd, k) && NameIn(jd, k) == RunManifestName() && k != DescriptorName()
            && !IsBelow(RunDirectory(name), k)
  {
    hide RunManifestName, DescriptorName;
    var jd := JournalDirectory(owner);
    var k := Under(jd, RunManifestName());
    ManifestIsName();
    ChildName(jd, RunManifestName());
    assert k[|jd|] == '/';
    assert '/' !in DescriptorName() by { ManifestIsName(); }
    if IsBelow(RunDirectory(name), k) {
      RelativeBelow(RunDirectory(name), k);
      BelowJournal(owner, RunManifestName());
      NotRunItself(name, owner);
      RunsSeparate(name, owner, Relative(RunDirectory(name), k), JournalPath() + "/" + RunManifestName());
    }
  }

  lemma ManifestIsName()
    ensures IsName(RunManifestName()) && '/' !in DescriptorName()
  {
  }

  lemma NotRunItself(name: string, owner: string)
    requires IsName(name) && IsName(owner)
    ensures RunDirectory(name) != Under(JournalDirectory(owner), RunManifestName())
  {
    var k := Under(JournalDirectory(owner), RunManifestName());
    var i := |Runs()| + 1 + |owner|;
    assert k[i] == '/';
    assert forall j :: |Runs()| + 1 <= j < |RunDirectory(name)| ==> RunDirectory(name)[j] in name;
  }

  lemma StaysLaidOut(c: Context, tree: Tree, p: Payload, k: string, content: Bytes)
    requires RunsLayout(c, tree, p) && |p.dependencies| == 1 && k !in tree
    requires var jd := JournalDirectory(p.dependencies[0].reference.owner);
             && jd != Runs() && jd != RunDirectory(p.dependencies[0].reference.owner)
             && jd != Under(RunDirectory(p.dependencies[0].reference.owner), "private") && IsChild(jd, k)
    ensures RunsLayout(c, WithFile(tree, k, content), p)
  {
    hide IsChild, Listing, Runs, RunDirectory, JournalDirectory, Under;
    var owner := p.dependencies[0].reference.owner;
    var jd := JournalDirectory(owner);
    OtherListing(tree, jd, k, content, Runs());
    OtherListing(tree, jd, k, content, RunDirectory(owner));
    OtherListing(tree, jd, k, content, Under(RunDirectory(owner), "private"));
    assert OwnerLayout(c, tree, owner);
    assert OwnerLayout(c, WithFile(tree, k, content), owner);
  }

  lemma StaysMatched(c: Context, tree: Tree, d: Dependency, content: Bytes)
    requires JournalMatches(c, tree, d)
    requires Under(d.journalDirectory, RunManifestName()) !in tree
    requires c.safe(RunManifestName()) && |RunManifestName()| <= MAX_PATH_LENGTH
    ensures JournalMatches(c, WithFile(tree, Under(d.journalDirectory, RunManifestName()), content), d)
  {
    hide Collected, Inventoried, Subtree, RunManifestName, IsChild;
    var jd := d.journalDirectory;
    var journal := Subtree(tree, jd);
    var bs :| Collected(c, journal, bs) && PrefixAll(bs, jd) == d.artifacts;
    var ds :| Inventoried(c, journal, ds) && JournalDirectories(d, ds) == d.directories;
    ManifestIsName();
    SubtreeAt(tree, jd, RunManifestName());
    ExtendedSubtree(tree, jd, RunManifestName(), content);
    StaysCollected(c, journal, content, bs);
    ChildName("", RunManifestName());
    StaysInventoried(c, journal, "", RunManifestName(), content, ds);
  }

  lemma ManifestLength()
    ensures |RunManifestName()| <= MAX_PATH_LENGTH
  {
  }

  lemma StaysRunValid(c: Context, tree: Tree, name: string, m: Manifest, k: string, content: Bytes)
    requires name != "" && RunValid(c, Subtree(tree, Runs()), name, m) && k !in tree && !IsBelow(RunDirectory(name), k)
    requires var run := Subtree(tree, RunDirectory(name));
             && SchedulerStateName() !in run
             && (c.semantic(m, run, SiblingJournal(c, Subtree(tree, Runs()), run))
                 ==> c.semantic(m, run, SiblingJournal(c, Subtree(WithFile(tree, k, content), Runs()), run)))
    ensures RunValid(c, Subtree(WithFile(tree, k, content), Runs()), name, m)
    ensures Subtree(Subtree(WithFile(tree, k, content), Runs()), name) == Subtree(Subtree(tree, Runs()), name)
  {
    hide Subtree, IsBelow, Collected, ManifestExact, Listing, RunInventory, TotalSize, SiblingJournal, Runs,
      ControlLayout, SchedulerStateName, JournalPath, ReferencePath, ReferenceTo;
    var t := WithFile(tree, k, content);
    SubtreeTwice(tree, Runs(), name);
    SubtreeTwice(t, Runs(), name);
    OtherSubtree(tree, k, content, RunDirectory(name));
    SubtreeAt(tree, Runs(), name);
    SubtreeAt(t, Runs(), name);
  }

  lemma StaysMatching(c: Context, tree: Tree, d: Descriptor, m: Manifest, content: Bytes)
    requires WellFormed(tree) && IsDirectory(tree, Runs()) && ContentsMatch(c, tree, d.payload, m)
    requires Placed(d.payload) && |d.payload.dependencies| == 1
    requires var k := Under(d.payload.dependencies[0].journalDirectory, RunManifestName());
             && k !in tree && |k| <= MAX_PATH_LENGTH && c.safe(RunManifestName())
             && var run := Subtree(tree, d.payload.primaryRunDirectory);
             && SchedulerStateName() !in run
             && (c.semantic(m, run, SiblingJournal(c, Subtree(tree, Runs()), run))
                 ==> c.semantic(m, run, SiblingJournal(c, Subtree(WithFile(tree, k, content), Runs()), run)))
    ensures ContentsMatch(c, WithFile(tree, Under(d.payload.dependencies[0].journalDirectory, RunManifestName()), content),
                          d.payload, m)
  {
    hide Subtree, IsBelow, RunValid, RunInventory, SiblingJournal, RunsLayout, Inventoried, JournalMatches,
      RunManifestName, Runs, RunDirectory, JournalDirectory, IsChild, DescribesRun, WellFormed, SortBindings, Under,
      SchedulerStateName;
    var p := d.payload;
    var owner := p.dependencies[0].reference.owner;
    var jd := p.dependencies[0].journalDirectory;
    var k := Under(jd, RunManifestName());
    OwnerDiffers(c, tree, p, m, 0);
    JournalPlace(owner, p.sourceRunDirectoryName);
    ManifestIsFile(c, Subtree(tree, Runs()), p.sourceRunDirectoryName, m);
    StaysRunValid(c, tree, p.sourceRunDirectoryName, m, k, content);
    StaysLaidOut(c, tree, p, k, content);
    StaysInventoried(c, tree, jd, k, content, p.directories);
    ManifestLength();
    StaysMatched(c, tree, p.dependencies[0], content);
  }

  lemma StaysOnTop(tree: Tree, jd: string, k: string, content: Bytes)
    requires IsChild(jd, k) && jd != ""
    ensures Listing(WithFile(tree, k, content), "") == Listing(tree, "")
  {
    OtherListing(tree, jd, k, content, "");
  }

  lemma NoStateInRun(tree: Tree, p: Payload)
    requires !KeepsState(tree, p)
    ensures SchedulerStateName() !in Subtree(tree, p.primaryRunDirectory)
  {
    hide Subtree;
    SubtreeAt(tree, p.primaryRunDirectory, SchedulerStateName());
  }

  /** Without scheduler state, adding such a file to an accepted delivery with a journal gives an accepted
      delivery, as long as the other cross-artifact checks do not mind. */
  lemma UnseenWithoutState(c: Context, tree: Tree, d: Descriptor, content: Bytes)
    requires WellFormed(tree) && Accepts(c, tree, d) && |d.payload.dependencies| == 1 && !KeepsState(tree, d.payload)
    requires var k := Under(d.payload.dependencies[0].journalDirectory, RunManifestName());
             && k !in tree && |k| <= MAX_PATH_LENGTH && c.safe(RunManifestName())
             && var run := Subtree(tree, d.payload.primaryRunDirectory);
             && forall m :: c.semantic(m, run, SiblingJournal(c, Subtree(tree, Runs()), run))
                  ==> c.semantic(m, run, SiblingJournal(c, Subtree(WithFile(tree, k, content), Runs()), run))
    ensures Accepts(c, WithFile(tree, Under(d.payload.dependencies[0].journalDirectory, RunManifestName()), content), d)
  {
    hide Subtree, IsBelow, RunInventory, SiblingJournal, ContentsMatch, JournalDirectory, RunDirectory, Runs,
      RunManifestName, DescriptorName, IsChild, WellFormed, DescriptorExact, Under, Inventoried, Listing, KeepsState,
      SchedulerStateName, Referenced;
    var p := d.payload;
    var jd := p.dependencies[0].journalDirectory;
    var k := Under(jd, RunManifestName());
    var m := AcceptedContents(c, tree, d);
    OwnerDiffers(c, tree, p, m, 0);
    JournalPlace(p.dependencies[0].reference.owner, p.sourceRunDirectoryName);
    NoStateInRun(tree, p);
    StaysMatching(c, tree, d, m, content);
    StaysOnTop(tree, jd, k, content);
    assert ContentsValid(c, WithFile(tree, k, content), p);
  }

  lemma StateStays(tree: Tree, p: Payload, k: string, content: Bytes)
    requires KeepsState(tree, p)
    ensures KeepsState(WithFile(tree, k, content), p)
  {
  }

  /** Verification sees a file of the run manifest's name at the top of a retained journal exactly when the
      run keeps scheduler state: the delivery with the file added is accepted if and only if it does not. */
  lemma JournalManifestUnseenIff(c: Context, tree: Tree, d: Descriptor, content: Bytes)
    requires WellFormed(tree) && Accepts(c, tree, d) && |d.payload.dependencies| == 1
    requires var k := Under(d.payload.dependencies[0].journalDirectory, RunManifestName());
             && k !in tree && |k| <= MAX_PATH_LENGTH && c.safe(RunManifestName())
             && var run := Subtree(tree, d.payload.primaryRunDirectory);
             && forall m :: c.semantic(m, run, SiblingJournal(c, Subtree(tree, Runs()), run))
                  ==> c.semantic(m, run, SiblingJournal(c, Subtree(WithFile(tree, k, content), Runs()), run))
    ensures var k := Under(d.payload.dependencies[0].journalDirectory, RunManifestName());
            var t := WithFile(tree, k, content);
            && WellFormed(t)
            && (Accepts(c, t, d) <==> !KeepsState(tree, d.payload))
            && (Accepts(c, t, d) ==> Files(t) != {DescriptorName()} + Elements(Paths(d.payload.artifacts)))
  {
    hide Subtree, IsBelow, RunInventory, SiblingJournal, ContentsMatch, JournalDirectory, RunDirectory, Runs, Accepts,
      RunManifestName, DescriptorName, IsChild, WellFormed, Under, Inventoried, KeepsState, Referenced;
    var p := d.payload;
    var jd := p.dependencies[0].journalDirectory;
    var k := Under(jd, RunManifestName());
    var t := WithFile(tree, k, content);
    var m := AcceptedContents(c, tree, d);
    OwnerDiffers(c, tree, p, m, 0);
    JournalPlace(p.dependencies[0].reference.owner, p.sourceRunDirectoryName);
    assert IsDirectory(tree, jd) by { JournalIsDirectory(c, tree, p, m); }
    StaysWellFormed(tree, jd, k, content);
    assert PassedOver(p, k) && k in Files(t);
    if Accepts(c, t, d) { NothingElseIff(c, t, d); }
    if KeepsState(tree, p) {
      StateStays(tree, p, k, content);
      if Accepts(c, t, d) { AcceptedIsComplete(c, t, d); }
    } else {
      UnseenWithoutState(c, tree, d, content);
    }
  }

  lemma JournalIsDirectory(c: Context, tree: Tree, p: Payload, m: Manifest)
    requires ContentsMatch(c, tree, p, m) && |p.dependencies| == 1
    ensures IsDirectory(tree, p.dependencies[0].journalDirectory)
  {
    hide RunValid, RunsLayout, Inventoried, Subtree;
    assert JournalMatches(c, tree, p.dependencies[0]);
  }
}
