/** What the export observes of a source run before it writes anything. */
module SourceRun {
  import opened Text
  import opened Trees
  import opened Delivery
  import opened DeliveryVerification

  function JournalPlace(reference: Reference): string {
    Under(reference.owner, JournalPath())
  }

  /** The reference inside a run and the journal beside it. */
  ghost predicate JournalObserved(c: Context, runs: Tree, name: string, j: Journal) {
    var run := Subtree(runs, name);
    && BoundedFile(run, ReferencePath())
    && c.parseReference(run[ReferencePath()].content) == Some(j.reference)
    && ReferenceExact(j.reference) && j.reference.consumer == name && c.safe(j.reference.owner)
    && IsDirectory(runs, JournalPlace(j.reference))
    && Collected(c, Subtree(runs, JournalPlace(j.reference)), j.artifacts)
    && Inventoried(c, Subtree(runs, JournalPlace(j.reference)), j.directories)
  }

  /** `run` is the complete observation of the run `name` in the directory `runs`. */
  ghost predicate Observable(c: Context, runs: Tree, name: string, run: Run) {
    && c.rules.safeRunName(name) && run.name == name
    && RunValid(c, runs, name, run.manifest)
    && run.inventory == RunInventory(run.manifest, Subtree(runs, name))
    && Inventoried(c, Subtree(runs, name), run.directories)
    && (run.journal.Some? <==> ReferencePath() in Paths(run.inventory))
    && (run.journal.Some? ==> JournalObserved(c, runs, name, run.journal.value))
  }

  lemma JournalUnique(c: Context, runs: Tree, name: string, a: Journal, b: Journal)
    requires JournalObserved(c, runs, name, a) && JournalObserved(c, runs, name, b)
    ensures a == b
  {
    hide Collected, Inventoried, Subtree;
    var journal := Subtree(runs, JournalPlace(a.reference));
    CollectedUnique(c, journal, a.artifacts, b.artifacts);
    InventoriedUnique(c, journal, a.directories, b.directories);
  }

  lemma ObservableUnique(c: Context, runs: Tree, name: string, a: Run, b: Run)
    requires Observable(c, runs, name, a) && Observable(c, runs, name, b)
    ensures a == b
  {
    hide RunValid, JournalObserved, Inventoried, Subtree, RunInventory;
    OneManifest(c, runs, name, a.manifest, b.manifest);
    InventoriedUnique(c, Subtree(runs, name), a.directories, b.directories);
    if a.journal.Some? { JournalUnique(c, runs, name, a.journal.value, b.journal.value); }
  }

  /** The observing part of `_observe_retained_journal_dependency`, when the run binds a reference. */
  method ObserveJournal(c: Context, runs: Tree, name: string) returns (r: Result<Journal>)
    requires WellFormed(runs)
    ensures r.Ok? ==> JournalObserved(c, runs, name, r.value)
    ensures r.Err? ==> forall j :: !JournalObserved(c, runs, name, j)
  {
    hide Collected, Inventoried, Subtree, WellFormed, JournalPath;
    var run := Subtree(runs, name);
    if !BoundedFile(run, ReferencePath()) {
      return Err;
    }
    var parsed := c.parseReference(run[ReferencePath()].content);
    if parsed.None? || !ReferenceExact(parsed.value) || parsed.value.consumer != name || !c.safe(parsed.value.owner) {
      return Err;
    }
    var place := JournalPlace(parsed.value);
    PlaceNotEmpty(parsed.value.owner);
    if !IsDirectory(runs, place) {
      return Err;
    }
    SubtreeWellFormed(runs, place);
    var journal := Subtree(runs, place);
    var artifacts := CollectRunArtifacts(c, journal);
    if artifacts.Err? {
      return Err;
    }
    var directories := ObserveDirectories(c, journal);
    if directories.Err? {
      return Err;
    }
    return Ok(Journal(parsed.value, artifacts.value, directories.value));
  }

  lemma PlaceNotEmpty(owner: string)
    ensures Under(owner, JournalPath()) != ""
  {
  }

  /** Everything the export observes before it creates the wrapper, and observes again after copying. */
  method ObserveSource(c: Context, runs: Tree, name: string) returns (r: Result<Run>)
    requires WellFormed(runs)
    ensures r.Ok? ==> Observable(c, runs, name, r.value)
    ensures r.Err? ==> forall run :: !Observable(c, runs, name, run)
  {
    hide RunValid, JournalObserved, Inventoried, Subtree, RunInventory, WellFormed, IsDirectory;
    if !c.rules.safeRunName(name) {
      return Err;
    }
    var observed := ObserveCompleteRun(c, runs, name);
    if observed.Err? {
      return Err;
    }
    var (m, inventory) := observed.value;
    forall x | RunValid(c, runs, name, x) ensures x == m { OneManifest(c, runs, name, x, m); }
    ManifestIsFile(c, runs, name, m);
    assert IsDirectory(runs, name) && name != "";
    assert WellFormed(Subtree(runs, name)) by { RunWellFormed(runs, name); }
    var directories := ObserveDirectories(c, Subtree(runs, name));
    if directories.Err? {
      return Err;
    }
    if BindingsOf(inventory, ReferencePath()) == [] {
      NoBinding(inventory, ReferencePath());
      return Ok(Run(m, name, inventory, directories.value, None));
    }
    NoBinding(inventory, ReferencePath());
    var journal := ObserveJournal(c, runs, name);
    if journal.Err? {
      return Err;
    }
    return Ok(Run(m, name, inventory, directories.value, Some(journal.value)));
  }

  lemma RunWellFormed(runs: Tree, name: string)
    requires WellFormed(runs) && IsDirectory(runs, name) && name != ""
    ensures WellFormed(Subtree(runs, name))
  {
    SubtreeWellFormed(runs, name);
  }

  /** An observed run meets what the descriptor's builder is given. */
  lemma ObservableIsObserved(c: Context, runs: Tree, name: string, run: Run)
    requires Observable(c, runs, name, run)
    ensures Observed(c.rules, run)
  {
    hide Subtree, RunInventory, Ascending, SiblingJournal, TotalSize, ReferencePath, FileBindings, Listing, SortedSet,
      AllAllowed, CrossChecked;
    InventoryIsExact(c, runs, name, run.manifest);
    var tree := Subtree(runs, name);
    var own := Bind(RunManifestName(), tree[RunManifestName()]);
    assert own in Elements(run.inventory);
    PathMembers(run.inventory, RunManifestName());
  }
}
