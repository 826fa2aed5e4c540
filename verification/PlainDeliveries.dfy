/** With names that every table leaves alone, and short trees of few small files, an observed run is within
    the limits of a delivery. */
module PlainDeliveries {
  import opened Text
  import opened Trees
  import opened Delivery
  import opened DeliveryVerification
  import opened SourceRun
  import opened DeliveryImage
  import PortablePaths
  import Tables = Names
  import ForensicExport

  // ---------------------------------------------------------------- portability under plain names

  /** Tables that leave every name alone. */
  ghost predicate Plain(t: Tables.Tables) {
    forall s: string :: t.normalize(s) == Some(s) && t.nfc(s) == s && t.casefold(s) == s
  }

  /** The kind of thing a path of the image names. */
  ghost predicate KindIn(image: Tree, p: PortablePaths.Prefix) {
    p.text in image && p.kind == (if image[p.text] == Directory then PortablePaths.Directory else PortablePaths.File)
  }

  lemma PrefixKinds(c: Context, image: Tree, k: string, leaf: PortablePaths.Kind, p: PortablePaths.Prefix)
    requires k in image && ForensicExport.Reachable(c, image, k) && p in PortablePaths.PrefixesOf(k, leaf)
    requires leaf == if image[k] == Directory then PortablePaths.Directory else PortablePaths.File
    ensures KindIn(image, p)
  {
    hide PortablePaths.Parts, PortablePaths.Join;
    var parts := PortablePaths.Parts(k);
    var i: nat :| i < |parts| && p == PortablePaths.PrefixAt(k, leaf, i);
    assert p.text == ForensicExport.PathTo(parts, i);
    if i == |parts| - 1 { assert parts[..i + 1] == parts; }
  }

  /** With plain names, every image of short paths is portable. */
  lemma PlainIsPortable(c: Context, runs: Tree, name: string, run: Run, p: Payload)
    requires SoundContext(c) && Shippable(c, runs, name, run) && Payloads(run, p) && Plain(c.rules.tables)
    requires forall k :: k in Image(p) ==> |k| <= MAX_PATH_LENGTH
    ensures PortablePaths.Portable(c.rules.tables, [DescriptorName()] + Paths(p.artifacts), p.directories)
  {
    hide Shippable, Payloads, SoundContext, Image, ForensicExport.Reachable, DescriptorName, PortablePaths.PrefixesOf,
      KindIn, Paths;
    var files, directories := [DescriptorName()] + Paths(p.artifacts), p.directories;
    TopNames();
    forall k | k in p.directories ensures k in Image(p) && Image(p)[k] == Directory && k != "" {
      DirectoryInImage(c, runs, name, run, p, k);
    }
    forall k | k in Paths(p.artifacts) ensures k in Image(p) && Image(p)[k] != Directory {
      FileInImage(c, runs, name, run, p, k);
    }
    var all := PortablePaths.Registered(files, directories);
    forall x | x in all ensures KindIn(Image(p), x) || x == PortablePaths.Prefix(DescriptorName(), PortablePaths.File) {
      if x in PortablePaths.PrefixesIn(directories, PortablePaths.Directory) {
        var k :| k in directories && x in PortablePaths.PrefixesOf(k, PortablePaths.Directory);
        ForensicExport.ImageLeads(c, runs, name, run, p, k);
        PrefixKinds(c, Image(p), k, PortablePaths.Directory, x);
      } else {
        var k :| k in files && x in PortablePaths.PrefixesOf(k, PortablePaths.File);
        if k == DescriptorName() {
          DescriptorPrefix(x);
        } else {
          ForensicExport.ImageLeads(c, runs, name, run, p, k);
          PrefixKinds(c, Image(p), k, PortablePaths.File, x);
        }
      }
    }
    ImageBeside(c, runs, name, run, p, DescriptorName());
    KindsDiffer(c.rules.tables, Image(p), all);
  }

  lemma KindsDiffer(t: Tables.Tables, image: Tree, all: set<PortablePaths.Prefix>)
    requires Plain(t) && DescriptorName() !in image
    requires forall x :: x in all ==>
               KindIn(image, x) || x == PortablePaths.Prefix(DescriptorName(), PortablePaths.File)
    ensures PortablePaths.NoCollision(t, all)
  {
    hide DescriptorName;
  }

  lemma DescriptorPrefix(x: PortablePaths.Prefix)
    requires x in PortablePaths.PrefixesOf(DescriptorName(), PortablePaths.File)
    ensures x == PortablePaths.Prefix(DescriptorName(), PortablePaths.File)
  {
    hide PortablePaths.Parts, DescriptorName;
    TopNames();
    assert DescriptorName() != "." by { DescriptorNotDot(); }
    ForensicExport.PartsName(DescriptorName());
    assert [DescriptorName()][..1] == [DescriptorName()];
  }

  lemma DescriptorNotDot()
    ensures DescriptorName() != "."
  {
    assert |DescriptorName()| > 1;
  }

  lemma DirectoryInImage(c: Context, runs: Tree, name: string, run: Run, p: Payload, k: string)
    requires Shippable(c, runs, name, run) && Payloads(run, p) && k in p.directories
    ensures k in Image(p) && Image(p)[k] == Directory && k != ""
  {
    hide Shippable, Payloads;
    ImageDirectories(c, runs, name, run, p);
    assert k in Elements(p.directories);
  }

  lemma FileInImage(c: Context, runs: Tree, name: string, run: Run, p: Payload, k: string)
    requires Shippable(c, runs, name, run) && Payloads(run, p) && k in Paths(p.artifacts)
    ensures k in Image(p) && Image(p)[k] != Directory
  {
    hide Shippable, IsBelow, RunDirectory, JournalDirectory, Subtree, SourceJournal, Trimmed, DeliveryArtifacts, Paths,
      DeliveryDirectories, Dependencies, Under;
    assert k in Elements(Paths(p.artifacts));
    ShippableFacts(c, runs, name, run);
    ArtifactPaths(c, runs, name, run, k);
    if InRun(run, Paths(run.inventory), k) {
      var r := Relative(RunDirectory(name), k);
      RelativeBelow(RunDirectory(name), k);
      RunPath(c, runs, name, run, r);
      NoEmptyPath(c, runs, name, run);
      ImageRunAt(c, runs, name, run, p, r);
    } else {
      var j := run.journal.value;
      var prefix := JournalDirectory(j.reference.owner);
      var r := Relative(prefix, k);
      RelativeBelow(prefix, k);
      JournalTree(c, runs, name, run);
      CollectedPath(c, SourceJournal(runs, j), j.artifacts, r);
      TrimmedAt(SourceJournal(runs, j), r);
      ImageJournalAt(c, runs, name, run, p, r);
    }
  }

  lemma ShippableFacts(c: Context, runs: Tree, name: string, run: Run)
    requires Shippable(c, runs, name, run)
    ensures WellFormed(runs) && Observable(c, runs, name, run) && run.name == name
  {
  }

  // ---------------------------------------------------------------- lengths and counts

  /** Short trees give short images. */
  lemma ShortImage(c: Context, runs: Tree, name: string, run: Run, p: Payload, k: string)
    requires Shippable(c, runs, name, run) && Payloads(run, p) && k in Image(p)
    requires forall r :: r in Subtree(runs, name) ==> |r| <= 100
    requires run.journal.Some? ==> forall r :: r in SourceJournal(runs, run.journal.value) ==> |r| <= 100
    ensures |k| <= MAX_PATH_LENGTH
  {
    hide Shippable, Payloads, Image, IsBelow, RunDirectory, JournalDirectory, Subtree, SourceJournal, Trimmed, IsFrame;
    if k != "" {
      ImageKinds(c, runs, name, run, p, k);
      NamesShort(c, runs, name, run);
      if IsFrame(run, k) {
        FrameShort(run, k);
      } else if IsBelow(RunDirectory(name), k) && k != RunDirectory(name) {
        RelativeBelow(RunDirectory(name), k);
        ImageRunAt(c, runs, name, run, p, Relative(RunDirectory(name), k));
        FrameShort(run, RunDirectory(name));
      } else {
        var prefix := JournalDirectory(run.journal.value.reference.owner);
        RelativeBelow(prefix, k);
        ImageJournalAt(c, runs, name, run, p, Relative(prefix, k));
        TrimmedAt(SourceJournal(runs, run.journal.value), Relative(prefix, k));
        FrameShort(run, prefix);
      }
    }
  }

  lemma NamesShort(c: Context, runs: Tree, name: string, run: Run)
    requires Shippable(c, runs, name, run)
    ensures run.name == name && |run.name| <= 128
    ensures run.journal.Some? ==> |run.journal.value.reference.owner| <= 128
    ensures IsFrame(run, RunDirectory(name))
    ensures run.journal.Some? ==> IsFrame(run, JournalDirectory(run.journal.value.reference.owner))
  {
    hide RunValid, WellFormed, Inventoried, Collected, Subtree, RunInventory, RunDirectory, JournalDirectory;
    assert c.rules.safeRunName(name);
  }

  lemma FrameShort(run: Run, k: string)
    requires IsFrame(run, k) && |run.name| <= 128
    requires run.journal.Some? ==> |run.journal.value.reference.owner| <= 128
    ensures |k| <= 1_000
  {
  }

  /** A few small files and directories are within the bounds. */
  lemma SmallIsWithinBounds(c: Context, runs: Tree, name: string, run: Run)
    requires Shippable(c, runs, name, run) && run.journal.Some?
    requires 2 <= |run.inventory| <= 100 && 1 <= TotalSize(run.inventory) <= 100 && |run.directories| <= 100
    requires 1 <= |run.journal.value.artifacts| <= 100 && 1 <= TotalSize(run.journal.value.artifacts) <= 100
    requires |run.journal.value.directories| <= 100
    ensures WithinBounds(run)
  {
    hide SortBindings, SortedSet, TotalSize, RunDirectory, JournalDirectory, Observable, WellFormed, Sound, BindingsOf,
      Observed, ReferencePath, Runs, Under, UnderAll, PrefixAll;
    var j := run.journal.value;
    JournalDependency(c, runs, name, run);
    var d := Dependencies(run)[0];
    var own := PrefixAll(run.inventory, RunDirectory(run.name));
    PrefixCounts(run.inventory, RunDirectory(run.name));
    PrefixCounts(j.artifacts, JournalDirectory(j.reference.owner));
    SortKeepsCount(own + d.artifacts);
    TotalSizeAppend(own, d.artifacts);
    UnderCounts(RunDirectory(run.name), run.directories);
    UnderCounts(JournalDirectory(j.reference.owner), j.directories);
    SortedSetShorter([Runs(), RunDirectory(run.name)] + UnderAll(RunDirectory(run.name), run.directories) + d.directories);
  }

  lemma PrefixCounts(bs: seq<Binding>, prefix: string)
    ensures |PrefixAll(bs, prefix)| == |bs| && TotalSize(PrefixAll(bs, prefix)) == TotalSize(bs)
  {
    PrefixKeepsSize(bs, prefix);
  }

  lemma UnderCounts(prefix: string, names: seq<string>)
    ensures |UnderAll(prefix, names)| == |names|
  {
  }
}
