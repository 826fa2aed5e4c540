/** The export of a forensic bundle into a fresh wrapper directory. Every system call that changes the
    wrapper is a step that may fail, every intermediate state of the wrapper is recorded, and nobody
    else writes to it. */
module ForensicExport {
  import opened Text
  import opened Trees
  import opened Delivery
  import opened DeliveryVerification
  import opened DeliveryImage
  import SourceRun
  import PortablePaths
  import JournalManifest

  function MarkerContent(): Bytes {
    [73, 78, 67, 79, 77, 80, 76, 69, 84, 69, 95, 70, 79, 82, 69, 78, 83, 73, 67, 95, 69, 88, 80, 79, 82, 84, 10]
  }

  /** The outcome of one system call; a short write stores `amount` bytes at most. */
  datatype Turn = Works | Short(amount: nat) | Fails

  datatype Made = Fresh | Existing | Failed

  /** A state that verification cannot accept: it shows the marker or has no descriptor. */
  predicate Unfinished(tree: Tree) {
    MarkerName() in tree || DescriptorName() !in tree
  }

  /** No unfinished state is accepted. */
  lemma UnfinishedRejected(c: Context, tree: Tree, d: Descriptor)
    requires Unfinished(tree)
    ensures !Accepts(c, tree, d)
  {
    if Listing(tree, "") == {DescriptorName(), Runs()} { MarkerNotListed(tree); }
  }

  /** All states from `from` on show the marker. */
  ghost predicate Marked(trace: seq<Tree>, from: nat) {
    forall i :: from <= i < |trace| ==> MarkerName() in trace[i]
  }

  /** All states from `from` on are `base` or show the marker. */
  ghost predicate Around(trace: seq<Tree>, from: nat, base: Tree) {
    forall i :: from <= i < |trace| ==> trace[i] == base || MarkerName() in trace[i]
  }

  // ---------------------------------------------------------------- paths of the image

  lemma PartsName(n: string)
    requires IsName(n) && n != "."
    ensures PortablePaths.Parts(n) == [n]
  {
  }

  /** The path of the first `i + 1` components. */
  function PathTo(parts: seq<string>, i: nat): string
    requires i < |parts|
  {
    PortablePaths.Join(parts[..i + 1])
  }

  lemma FirstSlash(path: string, i: nat, j: nat)
    requires i < |path| && path[i] == '/' && '/' !in path[..i]
    requires j < |path| && path[j] == '/' && '/' !in path[..j]
    ensures i == j
  {
    assert forall k :: 0 <= k < i ==> path[k] == path[..i][k];
    assert forall k :: 0 <= k < j ==> path[k] == path[..j][k];
  }

  /** Parts split at the first slash. */
  lemma PartsSplit(path: string, i: nat)
    requires i < |path| && path[i] == '/' && '/' !in path[..i]
    ensures PortablePaths.Parts(path) == PortablePaths.Component(path[..i]) + PortablePaths.Parts(path[i + 1..])
  {
    FirstSlash(path, i, IndexOf(path, '/'));
  }

  lemma {:induction false} PartsUnder(q: string, n: string)
    requires IsName(n) && n != "."
    ensures PortablePaths.Parts(Under(q, n)) == PortablePaths.Parts(q) + [n]
    decreases |q|
  {
    hide PortablePaths.Parts;
    var k := Under(q, n);
    PartsName(n);
    if '/' in q {
      var j := IndexOf(q, '/');
      assert k[..j] == q[..j] && k[j] == '/' && k[j + 1..] == Under(q[j + 1..], n);
      PartsSplit(q, j);
      PartsSplit(k, j);
      PartsUnder(q[j + 1..], n);
    } else {
      assert k[..|q|] == q && k[|q|] == '/' && k[|q| + 1..] == n;
      PartsSplit(k, |q|);
      FlatParts(q);
    }
  }

  lemma FlatParts(q: string)
    requires '/' !in q
    ensures PortablePaths.Parts(q) == PortablePaths.Component(q)
  {
  }

  /** The components of `k` are safe and lead through directories of the tree to `k`. */
  ghost predicate Reachable(c: Context, tree: Tree, k: string) {
    var parts := PortablePaths.Parts(k);
    && PortablePaths.Join(parts) == k
    && (forall i :: 0 <= i < |parts| ==> c.safe(parts[i]) && PathTo(parts, i) in tree)
    && (forall i :: 0 <= i < |parts| - 1 ==> tree[PathTo(parts, i)] == Directory)
  }

  /** Every entry has a safe name. */
  ghost predicate SafelyNamed(c: Context, tree: Tree) {
    forall q, k :: IsDirectory(tree, q) && k in tree && IsChild(q, k) ==> SafeNameIn(c, q, k)
  }

  lemma {:induction false} AllReachable(c: Context, tree: Tree, k: string)
    requires WellFormed(tree) && SafelyNamed(c, tree) && !c.safe(".") && k in tree
    ensures Reachable(c, tree, k)
    decreases |k|
  {
    hide WellFormed, IsChild, PortablePaths.Parts;
    if k == "" {
      NoParts();
    } else {
      var q := Parent(tree, k);
      NameChild(q, k);
      assert SafeNameIn(c, q, k);
      AllReachable(c, tree, q);
      var n := NameIn(q, k);
      if q == "" { PartsName(n); NoParts(); } else { PartsUnder(q, n); }
      OneMore(c, tree, q, k, n);
    }
  }

  lemma NoParts()
    ensures PortablePaths.Parts("") == []
  {
  }

  lemma OneMore(c: Context, tree: Tree, q: string, k: string, n: string)
    requires IsDirectory(tree, q) && k in tree && c.safe(n) && k == Child(q, n) && Reachable(c, tree, q)
    requires PortablePaths.Parts(k) == PortablePaths.Parts(q) + [n]
    ensures Reachable(c, tree, k)
  {
    hide PortablePaths.Parts;
    var a, b := PortablePaths.Parts(q), PortablePaths.Parts(k);
    assert b[..|a|] == a && b[..|b|] == b && a[..|a|] == a;
    NoParts();
    assert PortablePaths.Join(b) == k;
    forall i | 0 <= i < |a| ensures PathTo(b, i) == PathTo(a, i) { assert b[..i + 1] == a[..i + 1]; }
    assert PathTo(b, |a|) == k;
    assert a != [] ==> PathTo(a, |a| - 1) == q;
  }

  /** What has been delivered so far agrees with the image. */
  ghost predicate Partial(tree: Tree, image: Tree) {
    forall k :: k in tree ==> k == MarkerName() || (k in image && tree[k] == image[k])
  }

  /** The files so far, next to the marker, are among `done`. */
  ghost predicate FilesWithin(tree: Tree, done: set<string>) {
    forall k :: k in tree && tree[k].File? ==> k == MarkerName() || k in done
  }

  ghost predicate Grown(before: Tree, after: Tree) {
    forall k :: k in before ==> k in after && after[k] == before[k]
  }

  class Medium {
    /** The wrapper; the empty map while it does not exist. */
    var tree: Tree
    var script: seq<Turn>
    ghost var trace: seq<Tree>
    ghost var faults: nat

    ghost predicate Valid()
      reads this
    {
      trace != [] && trace[|trace| - 1] == tree
    }

    constructor (start: Tree, turns: seq<Turn>)
      ensures Valid() && tree == start && script == turns && faults == 0
    {
      tree, script := start, turns;
      trace, faults := [start], 0;
    }

    // -------------------------------------------------------------- system calls

    /** Takes the next outcome; calls work once the script is used up. */
    method Next() returns (t: Turn)
      modifies this`script, this`faults
      ensures t.Fails? ==> faults == old(faults) + 1
      ensures !t.Fails? ==> faults == old(faults)
    {
      if script == [] {
        return Works;
      }
      t := script[0];
      script := script[1..];
      if t.Fails? { faults := faults + 1; }
    }

    /** A call that reads or syncs. */
    method Check() returns (ok: bool)
      requires Valid()
      modifies this`script, this`faults
      ensures Valid()
      ensures faults == if ok then old(faults) else old(faults) + 1
    {
      var t := Next();
      ok := !t.Fails?;
    }

    method Change(next: Tree)
      requires Valid()
      modifies this`tree, this`trace
      ensures Valid() && tree == next && trace == old(trace) + [next]
    {
      tree := next;
      trace := trace + [next];
    }

    method MakeDirectory(k: string) returns (made: Made)
      requires Valid()
      modifies this
      ensures Valid() && old(trace) <= trace
      ensures forall i :: |old(trace)| <= i < |trace| ==> trace[i] == tree
      ensures made == Fresh ==> k !in old(tree) && tree == old(tree)[k := Directory]
      ensures made != Fresh ==> tree == old(tree)
      ensures made == Existing ==> k in tree
      ensures made == Failed <==> faults != old(faults)
      ensures made == Failed ==> faults == old(faults) + 1
    {
      var t := Next();
      if t.Fails? {
        return Failed;
      }
      if k in tree {
        return Existing;
      }
      Change(tree[k := Directory]);
      return Fresh;
    }

    /** Exclusive creation. */
    method CreateFile(k: string) returns (ok: bool)
      requires Valid()
      modifies this
      ensures Valid() && old(trace) <= trace
      ensures forall i :: |old(trace)| <= i < |trace| ==> trace[i] == tree
      ensures ok ==> k !in old(tree) && tree == old(tree)[k := File([], 1)] && faults == old(faults)
      ensures !ok ==> tree == old(tree) && (k in tree || faults == old(faults) + 1)
      ensures faults <= old(faults) + 1
    {
      var t := Next();
      if t.Fails? || k in tree {
        return false;
      }
      Change(tree[k := File([], 1)]);
      return true;
    }

    /** Appends some of the data; no progress is a failure. */
    method Append(k: string, data: Bytes) returns (n: nat)
      requires Valid() && k in tree && tree[k].File? && data != []
      modifies this
      ensures Valid() && old(trace) <= trace
      ensures forall i :: |old(trace)| <= i < |trace| ==> trace[i] == tree
      ensures n <= |data|
      ensures n > 0 ==> tree == old(tree)[k := File(old(tree)[k].content + data[..n], old(tree)[k].links)]
      ensures n > 0 ==> faults == old(faults)
      ensures n == 0 ==> tree == old(tree) && faults == old(faults) + 1
    {
      var t := Next();
      if t.Fails? {
        return 0;
      }
      n := if t.Short? && t.amount < |data| then t.amount else |data|;
      if n == 0 {
        faults := faults + 1;
        return 0;
      }
      Change(tree[k := File(tree[k].content + data[..n], tree[k].links)]);
    }

    method Unlink(k: string) returns (ok: bool)
      requires Valid() && k in tree
      modifies this
      ensures Valid() && old(trace) <= trace
      ensures forall i :: |old(trace)| <= i < |trace| ==> trace[i] == tree
      ensures ok ==> tree == old(tree) - {k} && faults == old(faults)
      ensures !ok ==> tree == old(tree) && faults == old(faults) + 1
    {
      var t := Next();
      if t.Fails? {
        return false;
      }
      Change(tree - {k});
      return true;
    }

    /** Removes the wrapper itself, if it is empty. */
    method RemoveRoot() returns (ok: bool)
      requires Valid() && tree == map["" := Directory]
      modifies this
      ensures Valid() && old(trace) <= trace
      ensures forall i :: |old(trace)| <= i < |trace| ==> trace[i] == tree
      ensures ok ==> tree == map[] && faults == old(faults)
      ensures !ok ==> tree == old(tree) && faults == old(faults) + 1
    {
      var t := Next();
      if t.Fails? {
        return false;
      }
      Change(map[]);
      return true;
    }

    // -------------------------------------------------------------- writing files

    /** Writes all of the content into a file just created, in as many writes as it takes. */
    method WriteAll(k: string, content: Bytes) returns (ok: bool)
      requires Valid() && k in tree && tree[k] == File([], 1)
      modifies this
      ensures Valid() && old(trace) <= trace
      ensures forall i :: |old(trace)| <= i < |trace| ==>
                k in trace[i] && trace[i][k].File? && trace[i] - {k} == old(tree) - {k}
      ensures k in tree && tree - {k} == old(tree) - {k}
      ensures ok ==> tree[k] == File(content, 1)
      ensures faults == if ok then old(faults) else old(faults) + 1
    {
      var done := 0;
      while done < |content|
        invariant done <= |content|
        invariant Valid() && old(trace) <= trace && faults == old(faults)
        invariant k in tree && tree[k] == File(content[..done], 1) && tree - {k} == old(tree) - {k}
        invariant forall i :: |old(trace)| <= i < |trace| ==>
          k in trace[i] && trace[i][k].File? && trace[i] - {k} == old(tree) - {k}
      {
        var n := Append(k, content[done..]);
        if n == 0 {
          return false;
        }
        assert content[..done] + content[done..][..n] == content[..done + n];
        done := done + n;
      }
      assert content[..done] == content;
      return true;
    }

    /** Creates one file with its content; what was created is unlinked again when a later step fails,
        unless its identity could not be recorded. `copy_file_evidence` and `_write_file_content` at the
        level of paths; the `Evidence` modules model them call by call. */
    method PlaceFile(k: string, content: Bytes) returns (ok: bool)
      requires Valid()
      modifies this
      ensures Valid() && old(trace) <= trace
      ensures forall i :: |old(trace)| <= i < |trace| ==> trace[i] - {k} == old(tree) - {k}
      ensures tree - {k} == old(tree) - {k}
      ensures ok ==> k !in old(tree) && tree == old(tree)[k := File(content, 1)] && faults == old(faults)
      ensures !ok ==> k in old(tree) || faults > old(faults)
    {
      ok := CreateFile(k);
      if !ok {
        return;
      }
      ok := Check();
      if !ok {
        return;
      }
      ok := WriteAll(k, content);
      if ok {
        ok := Check();
      }
      if !ok {
        var unlinked := Unlink(k);
        if unlinked {
          var synced := Check();
        }
        return;
      }
      assert tree == old(tree)[k := File(content, 1)] by { SameBut(tree, old(tree), k); }
    }

    // -------------------------------------------------------------- the marker

    /** `_write_incomplete_marker`. */
    method WriteMarker() returns (ok: bool)
      requires Valid() && MarkerName() !in tree
      modifies this
      ensures Valid() && old(trace) <= trace
      ensures Around(trace, |old(trace)|, old(tree))
      ensures ok ==> tree == old(tree)[MarkerName() := File(MarkerContent(), 1)] && faults == old(faults)
      ensures !ok ==> faults > old(faults) && (tree == old(tree) || MarkerName() in tree)
    {
      hide MarkerName, MarkerContent;
      ghost var base := tree;
      ok := PlaceFile(MarkerName(), MarkerContent());
      assert base - {MarkerName()} == base;
      forall i | |old(trace)| <= i < |trace| ensures trace[i] == base || MarkerName() in trace[i] {
        assert trace[i] - {MarkerName()} == base;
        if MarkerName() !in trace[i] { assert trace[i] - {MarkerName()} == trace[i]; }
      }
      if MarkerName() !in tree { assert tree - {MarkerName()} == tree; }
    }

    /** `_remove_incomplete_marker`: a sync that fails after the unlink puts the marker back. */
    method RemoveMarker(ghost base: Tree) returns (ok: bool)
      requires Valid() && MarkerName() !in base && tree == base[MarkerName() := File(MarkerContent(), 1)]
      modifies this
      ensures Valid() && old(trace) <= trace
      ensures Around(trace, |old(trace)|, base)
      ensures ok ==> tree == base && faults == old(faults)
      ensures !ok ==> faults > old(faults) && (MarkerName() in tree || (tree == base && faults > old(faults) + 1))
    {
      hide MarkerName, MarkerContent;
      ok := Check();
      if !ok {
        return;
      }
      ok := Unlink(MarkerName());
      if !ok {
        return;
      }
      assert tree == base;
      ok := Check();
      if !ok {
        var restored := WriteMarker();
        return false;
      }
    }

    // -------------------------------------------------------------- directories and copies

    /** `_create_directory_path` and `_create_parent_directories`: makes what is missing of the path
        that the parts describe. */
    method MakePath(c: Context, path: string, parts: seq<string>, ghost image: Tree) returns (ok: bool)
      requires Valid() && MarkerName() in tree && MarkerName() !in image && Partial(tree, image)
      requires forall i :: 0 <= i < |parts| ==> IsDirectory(image, PathTo(parts, i))
      modifies this
      ensures Valid() && old(trace) <= trace && Marked(trace, |old(trace)|)
      ensures Partial(tree, image) && Grown(old(tree), tree)
      ensures forall k :: k in tree && tree[k].File? ==> k in old(tree)
      ensures ok ==> faults == old(faults)
      ensures ok ==> forall i :: 0 <= i < |parts| ==> PathTo(parts, i) in tree
      ensures !ok ==> || faults > old(faults) || c.rules.tables.normalize(path) != Some(path)
                      || exists i :: 0 <= i < |parts| && !c.safe(parts[i])
    {
      hide MarkerName, PathTo;
      if c.rules.tables.normalize(path) != Some(path) {
        return false;
      }
      var i := 0;
      while i < |parts|
        invariant i <= |parts| && Valid() && old(trace) <= trace && Marked(trace, |old(trace)|)
        invariant MarkerName() in tree && Partial(tree, image) && Grown(old(tree), tree) && faults == old(faults)
        invariant forall k :: k in tree && tree[k].File? ==> k in old(tree)
        invariant forall j :: 0 <= j < i ==> PathTo(parts, j) in tree
      {
        if !c.safe(parts[i]) {
          return false;
        }
        var k := PathTo(parts, i);
        assert IsDirectory(image, k);
        var made := MakeDirectory(k);
        if made == Failed {
          return false;
        }
        if made == Fresh {
          var synced := Check();
          if !synced {
            return false;
          }
        }
        var child := Check();
        if !child {
          return false;
        }
        i := i + 1;
      }
      return true;
    }

    /** Copies one bound file to its place, with its parent directories. */
    method CopyOne(c: Context, source: Tree, b: Binding, prefix: string, ghost image: Tree, ghost done: set<string>)
      returns (ok: bool)
      requires Valid() && MarkerName() in tree && MarkerName() !in image && Partial(tree, image)
      requires Copyable(c, source, b, prefix, image) && FilesWithin(tree, done) && Under(prefix, b.path) !in done
      modifies this
      ensures Valid() && old(trace) <= trace && Marked(trace, |old(trace)|)
      ensures ok ==> MarkerName() in tree && Partial(tree, image) && Grown(old(tree), tree)
      ensures ok ==> Under(prefix, b.path) in tree && FilesWithin(tree, done + {Under(prefix, b.path)})
      ensures ok ==> faults == old(faults)
      ensures !ok ==> faults > old(faults)
    {
      hide MarkerName, PathTo, PortablePaths.Parts, Under, Reachable, PortablePaths.Join;
      var destination := Under(prefix, b.path);
      var parts := PortablePaths.Parts(destination);
      CopyPath(c, source, b, prefix, image);
      ok := MakePath(c, destination, parts[..|parts| - 1], image);
      if !ok {
        return;
      }
      assert destination !in tree;
      ghost var before, trace0 := tree, trace;
      ok := PlaceFile(destination, source[b.path].content);
      assert Marked(trace, |old(trace)|) by {
        forall i | |old(trace)| <= i < |trace| ensures MarkerName() in trace[i] {
          if i < |trace0| {
            assert trace[i] == trace0[i];
          } else {
            assert MarkerName() in before - {destination};
            assert MarkerName() in trace[i] - {destination};
          }
        }
      }
    }

    /** `_copy_bound_inventory` from an unchanging source. */
    method CopyInventory(c: Context, source: Tree, inventory: seq<Binding>, prefix: string,
                         ghost image: Tree, ghost done: set<string>)
      returns (ok: bool)
      requires Valid() && MarkerName() in tree && MarkerName() !in image && Partial(tree, image)
      requires NoDuplicates(Paths(inventory))
      requires forall i :: 0 <= i < |inventory| ==> Copyable(c, source, inventory[i], prefix, image)
      requires FilesWithin(tree, done)
      requires forall p :: p in Paths(inventory) ==> Under(prefix, p) !in done
      modifies this
      ensures Valid() && old(trace) <= trace && Marked(trace, |old(trace)|)
      ensures ok ==> MarkerName() in tree && Partial(tree, image) && Grown(old(tree), tree)
      ensures ok ==> forall p :: p in UnderAll(prefix, Paths(inventory)) ==> p in tree
      ensures ok ==> FilesWithin(tree, done + Elements(UnderAll(prefix, Paths(inventory))))
      ensures ok ==> faults == old(faults)
      ensures !ok ==> faults > old(faults)
    {
      hide MarkerName, Under, Copyable, Partial;
      ghost var places := UnderAll(prefix, Paths(inventory));
      var i := 0;
      while i < |inventory|
        invariant i <= |inventory| && Valid() && old(trace) <= trace && Marked(trace, |old(trace)|)
        invariant MarkerName() in tree && Partial(tree, image) && Grown(old(tree), tree) && faults == old(faults)
        invariant FilesWithin(tree, done + Elements(places[..i]))
        invariant forall p :: p in places[..i] ==> p in tree
      {
        var b := inventory[i];
        assert places[i] == Under(prefix, b.path);
        assert Paths(inventory)[i] in Paths(inventory);
        NextPlace(prefix, Paths(inventory), i);
        ok := CopyOne(c, source, b, prefix, image, done + Elements(places[..i]));
        if !ok {
          return;
        }
        assert done + Elements(places[..i]) + {places[i]} == done + Elements(places[..i + 1]);
        i := i + 1;
      }
      assert places[..i] == places;
      return true;
    }
  }

  /** Places of different paths differ. */
  lemma NextPlace(prefix: string, paths: seq<string>, i: nat)
    requires NoDuplicates(paths) && i < |paths|
    ensures var places := UnderAll(prefix, paths);
            && places[i] !in places[..i]
            && Elements(places[..i + 1]) == Elements(places[..i]) + {places[i]}
            && places[..i + 1] == places[..i] + [places[i]]
  {
    hide Under;
    var places := UnderAll(prefix, paths);
    assert places[..i + 1] == places[..i] + [places[i]];
    if places[i] in places[..i] {
      var j :| 0 <= j < i && places[j] == places[i];
      UnderInjective(prefix, paths[j], paths[i]);
    }
  }

  /** A file that can be copied to its place in the image. */
  ghost predicate Copyable(c: Context, source: Tree, b: Binding, prefix: string, image: Tree) {
    var k := Under(prefix, b.path);
    && Holds(source, b)
    && k in image && image[k] == File(source[b.path].content, 1)
    && Reachable(c, image, k) && k != ""
    && c.rules.tables.normalize(k) == Some(k)
  }

  lemma CopyPath(c: Context, source: Tree, b: Binding, prefix: string, image: Tree)
    requires Copyable(c, source, b, prefix, image)
    ensures var parts := PortablePaths.Parts(Under(prefix, b.path));
            && parts != []
            && var up := parts[..|parts| - 1];
               forall i :: 0 <= i < |up| ==> c.safe(up[i]) && IsDirectory(image, PathTo(up, i))
  {
    hide PortablePaths.Parts;
    var parts := PortablePaths.Parts(Under(prefix, b.path));
    var up := parts[..|parts| - 1];
    forall i | 0 <= i < |up| ensures c.safe(up[i]) && IsDirectory(image, PathTo(up, i)) {
      assert up[..i + 1] == parts[..i + 1] && up[i] == parts[i];
    }
  }

  lemma SameBut(a: Tree, b: Tree, k: string)
    requires k in a && a - {k} == b - {k}
    ensures a == b[k := a[k]]
  {
    var c := b[k := a[k]];
    forall x ensures (x in a <==> x in c) && (x in a ==> a[x] == c[x]) {
      if x != k {
        assert x in a <==> x in a - {k};
        assert x in b <==> x in b - {k};
        if x in a { assert (a - {k})[x] == a[x] && (b - {k})[x] == b[x]; }
      }
    }
  }

  // ---------------------------------------------------------------- what there is to copy

  /** Everything known about a run that is being exported. */
  ghost predicate Ready(c: Context, runs: Tree, name: string, run: Run, p: Payload) {
    SoundContext(c) && Shippable(c, runs, name, run) && Payloads(run, p) && Deliverable(c.rules, run)
  }

  lemma ImageReachable(c: Context, runs: Tree, name: string, run: Run, p: Payload, k: string)
    requires Ready(c, runs, name, run, p) && k in Image(p) && k != ""
    ensures Reachable(c, Image(p), k) && c.rules.tables.normalize(k) == Some(k)
  {
    hide Image, Shippable, Payloads, Deliverable, Reachable, WellFormed;
    ImageLeads(c, runs, name, run, p, k);
    ImagePortable(c.rules, run, p, k);
  }

  /** Every path of the image leads through its directories, under safe names. */
  lemma ImageLeads(c: Context, runs: Tree, name: string, run: Run, p: Payload, k: string)
    requires SoundContext(c) && Shippable(c, runs, name, run) && Payloads(run, p) && k in Image(p)
    ensures Reachable(c, Image(p), k)
  {
    hide Image, Shippable, Payloads, Reachable, WellFormed, SafeNameIn, IsChild;
    ImageWellFormed(c, runs, name, run, p);
    forall q, x | IsDirectory(Image(p), q) && x in Image(p) && IsChild(q, x) ensures SafeNameIn(c, q, x) {
      ImageName(c, runs, name, run, p, q, x);
    }
    AllReachable(c, Image(p), k);
  }

  lemma ImagePortable(rules: Rules, run: Run, p: Payload, k: string)
    requires Deliverable(rules, run) && Payloads(run, p) && k in Image(p) && k != ""
    ensures rules.tables.normalize(k) == Some(k)
  {
    hide PortablePaths.NoCollision, DeliveryArtifacts, DeliveryDirectories, Dependencies, WithinBounds, NodeAt, DescriptorName;
    if k in Elements(p.directories) {
      assert PortablePaths.PortableText(rules.tables, k);
    } else {
      assert k in [DescriptorName()] + Paths(p.artifacts);
      assert PortablePaths.PortableText(rules.tables, k);
    }
  }

  lemma MarkerApart(c: Context, runs: Tree, name: string, run: Run, p: Payload)
    requires Ready(c, runs, name, run, p)
    ensures MarkerName() !in Image(p) && DescriptorName() !in Image(p) && MarkerName() != DescriptorName()
  {
    hide Image, Shippable, Payloads, Deliverable;
    TopNames();
    ImageBeside(c, runs, name, run, p, MarkerName());
    ImageBeside(c, runs, name, run, p, DescriptorName());
  }

  lemma DirectoryReachable(c: Context, runs: Tree, name: string, run: Run, p: Payload, k: string)
    requires Ready(c, runs, name, run, p) && k in p.directories
    ensures c.rules.tables.normalize(k) == Some(k)
    ensures var parts := PortablePaths.Parts(k);
            && parts != [] && PathTo(parts, |parts| - 1) == k
            && forall i :: 0 <= i < |parts| ==> c.safe(parts[i]) && IsDirectory(Image(p), PathTo(parts, i))
  {
    hide Shippable, Payloads, Deliverable, PortablePaths.Parts, Image, SoundContext;
    assert k in Image(p) && Image(p)[k] == Directory && k != "" by { ListedDirectory(c, runs, name, run, p, k); }
    ImageReachable(c, runs, name, run, p, k);
    var parts := PortablePaths.Parts(k);
    assert parts[..|parts|] == parts;
  }

  lemma ListedDirectory(c: Context, runs: Tree, name: string, run: Run, p: Payload, k: string)
    requires Ready(c, runs, name, run, p) && k in p.directories
    ensures k in Image(p) && Image(p)[k] == Directory && k != ""
  {
    hide Shippable, Payloads, Deliverable, SoundContext;
    ImageDirectories(c, runs, name, run, p);
    assert k in Elements(p.directories);
  }

  lemma RunCopyable(c: Context, runs: Tree, name: string, run: Run, p: Payload, i: nat)
    requires Ready(c, runs, name, run, p) && i < |run.inventory|
    ensures Copyable(c, Subtree(runs, name), run.inventory[i], RunDirectory(name), Image(p))
  {
    hide Shippable, Payloads, Deliverable, SoundContext, Image, Subtree, Reachable, WellFormed;
    var b := run.inventory[i];
    RunBinding(c, runs, name, run, b);
    ImageRunAt(c, runs, name, run, p, b.path);
    var k := Under(RunDirectory(name), b.path);
    ImageReachable(c, runs, name, run, p, k);
  }

  lemma RunBinding(c: Context, runs: Tree, name: string, run: Run, b: Binding)
    requires Shippable(c, runs, name, run) && b in run.inventory
    ensures Holds(Subtree(runs, name), b) && b.path != ""
  {
    hide Subtree, WellFormed, RunValid, Inventoried, SourceRun.JournalObserved, RunInventory, Holds;
    InventoryHolds(c, runs, name, run.manifest, b);
  }

  lemma JournalCopyable(c: Context, runs: Tree, name: string, run: Run, p: Payload, i: nat)
    requires Ready(c, runs, name, run, p) && run.journal.Some? && i < |run.journal.value.artifacts|
    ensures Copyable(c, SourceJournal(runs, run.journal.value), run.journal.value.artifacts[i],
                     JournalDirectory(run.journal.value.reference.owner), Image(p))
  {
    hide Payloads, Deliverable, SoundContext, Image, Subtree, Reachable, WellFormed, SourceRun.Observable, Collected,
      Inventoried, SourceJournal, Trimmed, JournalDirectory;
    var j := run.journal.value;
    var b := j.artifacts[i];
    var tree := SourceJournal(runs, j);
    JournalTree(c, runs, name, run);
    RootIsDirectory(tree);
    CollectedHolds(c, tree, j.artifacts, b);
    PathMembers(j.artifacts, b.path);
    CollectedPath(c, tree, j.artifacts, b.path);
    TrimmedAt(tree, b.path);
    ImageJournalAt(c, runs, name, run, p, b.path);
    ImageReachable(c, runs, name, run, p, Under(JournalDirectory(j.reference.owner), b.path));
  }

  /** The places of the two inventories: without repetition, disjoint, and all files of the image. */
  lemma Places(c: Context, runs: Tree, name: string, run: Run, p: Payload)
    requires Ready(c, runs, name, run, p)
    ensures NoDuplicates(Paths(run.inventory))
    ensures forall k :: k in Paths(p.artifacts) ==>
              || k in UnderAll(RunDirectory(name), Paths(run.inventory))
              || (run.journal.Some? &&
                  k in UnderAll(JournalDirectory(run.journal.value.reference.owner), Paths(run.journal.value.artifacts)))
    ensures run.journal.Some? ==>
              && NoDuplicates(Paths(run.journal.value.artifacts))
              && forall x :: x in Paths(run.journal.value.artifacts) ==>
                   Under(JournalDirectory(run.journal.value.reference.owner), x)
                     !in Elements(UnderAll(RunDirectory(name), Paths(run.inventory)))
  {
    hide SourceRun.Observable, WellFormed, Deliverable, SoundContext, NoDuplicates, UnderAll, Paths, DeliveryArtifacts,
      RunDirectory, JournalDirectory, Under, DeliveryDirectories, Ascending, PrefixAll, ReferencePath, RunManifestName;
    JournalDependency(c, runs, name, run);
    AscendingDistinct(Paths(run.inventory));
    PrefixedPaths(run.inventory, RunDirectory(name));
    RunNames(c, runs, name, run);
    if run.journal.Some? {
      var j := run.journal.value;
      AscendingDistinct(Paths(j.artifacts));
      PrefixedPaths(j.artifacts, JournalDirectory(j.reference.owner));
      forall x | x in Paths(j.artifacts)
        ensures Under(JournalDirectory(j.reference.owner), x) !in Elements(UnderAll(RunDirectory(name), Paths(run.inventory)))
      {
        PrefixedPath(j.artifacts, JournalDirectory(j.reference.owner), x);
        DeliveryPath(c.rules, run, Under(JournalDirectory(j.reference.owner), x));
      }
    } else {
      NoPaths();
    }
    forall k | k in Paths(p.artifacts)
      ensures || k in UnderAll(RunDirectory(name), Paths(run.inventory))
              || (run.journal.Some? && k in UnderAll(JournalDirectory(run.journal.value.reference.owner),
                                                     Paths(run.journal.value.artifacts)))
    {
      DeliveryPath(c.rules, run, k);
    }
  }

  // ---------------------------------------------------------------- the phases of an export

  function EmptyWrapper(): Tree {
    map["" := Directory]
  }

  function WithMarker(tree: Tree): Tree {
    tree[MarkerName() := File(MarkerContent(), 1)]
  }

  /** No wrapper yet, or an empty one. */
  predicate Blank(tree: Tree) {
    tree == map[] || tree == EmptyWrapper()
  }

  /** `_create_fresh_wrapper`: an empty directory that could not be checked is removed again. */
  method CreateWrapper(m: Medium) returns (ok: bool)
    requires m.Valid() && m.tree == map[]
    modifies m
    ensures m.Valid() && old(m.trace) <= m.trace
    ensures forall i :: |old(m.trace)| <= i < |m.trace| ==> Blank(m.trace[i])
    ensures ok ==> m.tree == EmptyWrapper() && m.faults == old(m.faults)
    ensures !ok ==> Blank(m.tree) && m.faults > old(m.faults)
  {
    var made := m.MakeDirectory("");
    if made != Fresh {
      return false;
    }
    ok := m.Check();
    if !ok {
      return;
    }
    ok := m.Check();
    if !ok {
      var removed := m.RemoveRoot();
      return;
    }
  }

  /** Puts the marker into the new wrapper; a wrapper left empty by a failure is removed. */
  method MarkWrapper(m: Medium) returns (ok: bool)
    requires m.Valid() && m.tree == EmptyWrapper()
    modifies m
    ensures m.Valid() && old(m.trace) <= m.trace
    ensures forall i :: |old(m.trace)| <= i < |m.trace| ==> Blank(m.trace[i]) || MarkerName() in m.trace[i]
    ensures ok ==> m.tree == WithMarker(EmptyWrapper()) && m.faults == old(m.faults)
    ensures !ok ==> m.faults > old(m.faults) && (Blank(m.tree) || MarkerName() in m.tree)
    ensures !ok && m.faults == old(m.faults) + 1 ==> m.tree == map[] || MarkerName() in m.tree
  {
    hide MarkerName, MarkerContent;
    assert MarkerName() != "" by { TopNames(); }
    ok := m.WriteMarker();
    if !ok && m.tree == EmptyWrapper() {
      var removed := m.RemoveRoot();
    }
  }

  /** `_create_direct_directory` for the runs directory. */
  method MakeRuns(ghost image: Tree, m: Medium) returns (ok: bool)
    requires m.Valid() && m.tree == WithMarker(EmptyWrapper())
    requires MarkerName() !in image && IsDirectory(image, "") && IsDirectory(image, Runs())
    requires MarkerName() != "" && Runs() != MarkerName() && Runs() != ""
    modifies m
    ensures m.Valid() && old(m.trace) <= m.trace && Marked(m.trace, |old(m.trace)|)
    ensures ok ==> MarkerName() in m.tree && Partial(m.tree, image) && Grown(old(m.tree), m.tree)
    ensures ok ==> FilesWithin(m.tree, {}) && m.faults == old(m.faults)
    ensures !ok ==> m.faults > old(m.faults)
  {
    hide MarkerName, MarkerContent, Runs;
    var made := m.MakeDirectory(Runs());
    if made != Fresh {
      return false;
    }
    ok := m.Check();
  }

  /** Creates the listed directories. */
  method MakeDirectories(c: Context, runs: Tree, name: string, run: Run, p: Payload, m: Medium) returns (ok: bool)
    requires m.Valid() && Ready(c, runs, name, run, p) && m.tree == WithMarker(EmptyWrapper())
    modifies m
    ensures m.Valid() && old(m.trace) <= m.trace && Marked(m.trace, |old(m.trace)|)
    ensures ok ==> MarkerName() in m.tree && Partial(m.tree, Image(p)) && Grown(old(m.tree), m.tree)
    ensures ok ==> FilesWithin(m.tree, {}) && forall k :: k in p.directories ==> k in m.tree
    ensures ok ==> m.faults == old(m.faults)
    ensures !ok ==> m.faults > old(m.faults)
  {
    hide MarkerName, MarkerContent, Ready, Image, Runs, PortablePaths.Parts, PathTo, Partial, WithMarker;
    ghost var image := Image(p);
    MarkerApart(c, runs, name, run, p);
    assert MarkerName() != "" && Runs() != MarkerName() && Runs() != "" by { TopNames(); RunsNotEmpty(); }
    assert "" in image && image[""] == Directory by { RootOfImage(p); }
    assert IsDirectory(image, Runs()) by { RunsInImage(c, runs, name, run, p); }
    ok := MakeRuns(image, m);
    if !ok {
      return;
    }
    var i := 0;
    while i < |p.directories|
      invariant i <= |p.directories| && m.Valid() && old(m.trace) <= m.trace && Marked(m.trace, |old(m.trace)|)
      invariant MarkerName() in m.tree && Partial(m.tree, image) && Grown(old(m.tree), m.tree)
      invariant FilesWithin(m.tree, {}) && m.faults == old(m.faults)
      invariant forall k :: k in p.directories[..i] ==> k in m.tree
    {
      var k := p.directories[i];
      DirectoryReachable(c, runs, name, run, p, k);
      var parts := PortablePaths.Parts(k);
      ok := m.MakePath(c, k, parts, image);
      if !ok {
        return;
      }
      assert p.directories[..i + 1] == p.directories[..i] + [k];
      i := i + 1;
    }
    assert p.directories[..i] == p.directories;
    return true;
  }

  lemma RunsInImage(c: Context, runs: Tree, name: string, run: Run, p: Payload)
    requires Ready(c, runs, name, run, p)
    ensures IsDirectory(Image(p), Runs())
  {
    hide Image, Shippable, Payloads, Deliverable, SoundContext;
    ImageFrame(c, runs, name, run, p, Runs());
  }

  /** A tree that agrees with the image and has all of it is the image. */
  lemma WholeImage(c: Context, runs: Tree, name: string, run: Run, p: Payload, tree: Tree)
    requires Ready(c, runs, name, run, p)
    requires Grown(WithMarker(EmptyWrapper()), tree) && Partial(tree, Image(p))
    requires forall k :: k in p.directories ==> k in tree
    requires forall k :: k in Paths(p.artifacts) ==> k in tree
    ensures tree == WithMarker(Image(p))
  {
    hide MarkerContent, Ready, MarkerName, NodeAt, DescriptorName;
    MarkerApart(c, runs, name, run, p);
    assert MarkerName() != "" by { TopNames(); }
    var whole := WithMarker(Image(p));
    assert tree[MarkerName()] == File(MarkerContent(), 1) by { assert MarkerName() in WithMarker(EmptyWrapper()); }
    assert "" in WithMarker(EmptyWrapper()) && "" in tree;
    forall k ensures (k in tree <==> k in whole) && (k in tree ==> tree[k] == whole[k]) {
    }
  }

  /** Creates the listed directories and copies the run and its journal. */
  method Fill(c: Context, runs: Tree, name: string, run: Run, p: Payload, m: Medium) returns (ok: bool)
    requires m.Valid() && Ready(c, runs, name, run, p) && m.tree == WithMarker(EmptyWrapper())
    modifies m
    ensures m.Valid() && old(m.trace) <= m.trace && Marked(m.trace, |old(m.trace)|)
    ensures ok ==> m.tree == WithMarker(Image(p)) && m.faults == old(m.faults)
    ensures !ok ==> m.faults > old(m.faults)
  {
    hide MarkerName, MarkerContent, Ready, Image, Subtree, SourceJournal, RunDirectory, JournalDirectory, Partial,
      Copyable, UnderAll, Under, Paths, NoDuplicates, WithMarker;
    ghost var image := Image(p);
    MarkerApart(c, runs, name, run, p);
    Places(c, runs, name, run, p);
    ok := MakeDirectories(c, runs, name, run, p, m);
    if !ok {
      return;
    }
    forall i | 0 <= i < |run.inventory| ensures Copyable(c, Subtree(runs, name), run.inventory[i], RunDirectory(name), image) {
      RunCopyable(c, runs, name, run, p, i);
    }
    ok := m.CopyInventory(c, Subtree(runs, name), run.inventory, RunDirectory(name), image, {});
    if !ok {
      return;
    }
    if run.journal.Some? {
      var j := run.journal.value;
      var prefix := JournalDirectory(j.reference.owner);
      forall i | 0 <= i < |j.artifacts| ensures Copyable(c, SourceJournal(runs, j), j.artifacts[i], prefix, image) {
        JournalCopyable(c, runs, name, run, p, i);
      }
      ghost var done := Elements(UnderAll(RunDirectory(name), Paths(run.inventory)));
      assert {} + done == done;
      ok := m.CopyInventory(c, SourceJournal(runs, j), j.artifacts, prefix, image, done);
      if !ok {
        return;
      }
    }
    WholeImage(c, runs, name, run, p, m.tree);
  }

  // ---------------------------------------------------------------- finishing

  /** A run that has been copied and described. */
  ghost predicate Sealed(c: Context, runs: Tree, name: string, run: Run, d: Descriptor) {
    && BindingsOf(DeliveryArtifacts(run), Under(RunDirectory(run.name), RunManifestName())) != []
    && d == Seal(run)
    && Ready(c, runs, name, run, d.payload)
    && |c.encodeDescriptor(d)| <= MAX_EVIDENCE_BYTES
    && RoundTrips(c, d)
  }

  ghost predicate CopyPasses(c: Context, runs: Tree, name: string, run: Run) {
    c.semantic(run.manifest, Subtree(runs, name), DeliveredJournal(runs, run))
  }

  lemma SealedExportable(c: Context, runs: Tree, name: string, run: Run, d: Descriptor)
    requires Sealed(c, runs, name, run, d)
    ensures Exportable(c, runs, name, run) <==> CopyPasses(c, runs, name, run)
  {
    hide SourceRun.Observable, Deliverable, Payloads, BindingsOf, DeliveryArtifacts, Seal, SoundContext, Subtree,
      DeliveredJournal, WellFormed, Under, RunDirectory, RunManifestName;
  }

  lemma MarkedWellFormed(c: Context, runs: Tree, name: string, run: Run, p: Payload)
    requires Ready(c, runs, name, run, p)
    ensures WellFormed(WithMarker(Image(p)))
  {
    hide Image, Shippable, Payloads, Deliverable, SoundContext, MarkerName, MarkerContent, WellFormed, IsChild;
    MarkerApart(c, runs, name, run, p);
    ImageWellFormed(c, runs, name, run, p);
    TopNames();
    RootOfImage(p);
    ChildName("", MarkerName());
    FlatChild(MarkerName());
    JournalManifest.StaysWellFormed(Image(p), "", MarkerName(), MarkerContent());
  }

  /** The contents check on the copy passes exactly when the cross-artifact checks do. */
  lemma CopyChecked(c: Context, runs: Tree, name: string, run: Run, d: Descriptor)
    requires Sealed(c, runs, name, run, d)
    ensures ContentsValid(c, WithMarker(Image(d.payload)), d.payload) <==> CopyPasses(c, runs, name, run)
  {
    hide Image, Shippable, Payloads, Deliverable, SoundContext, MarkerName, MarkerContent, Subtree,
      DeliveredJournal, ContentsMatch, BindingsOf, DeliveryArtifacts, Seal, Under, RunManifestName, Runs, Placed,
      DescriptorName;
    var p := d.payload;
    var tree := WithMarker(Image(p));
    MarkerApart(c, runs, name, run, p);
    TopNames();
    if CopyPasses(c, runs, name, run) {
      ImageContents(c, runs, name, run);
      PayloadPlaced(c, runs, name, run, p);
      MarkerSafe(c);
      BesideUnseen(c, Image(p), p, run.manifest, MarkerName(), MarkerContent());
      ImageFrame(c, runs, name, run, p, Runs());
    }
    if ContentsValid(c, tree, p) {
      var x :| ContentsMatch(c, tree, p, x);
      FlatBelow(Runs(), MarkerName());
      JournalManifest.OtherSubtree(Image(p), MarkerName(), MarkerContent(), Runs());
      ContentsRun(c, tree, p, x, run);
      ImageRunValid(c, runs, name, run, p);
      SameManifest(c, runs, name, run, Subtree(Image(p), Runs()), x);
    }
  }

  lemma MarkerSafe(c: Context)
    requires SoundContext(c)
    ensures c.safe(MarkerName())
  {
  }

  lemma ContentsRun(c: Context, tree: Tree, p: Payload, x: Manifest, run: Run)
    requires ContentsMatch(c, tree, p, x) && Payloads(run, p)
    ensures RunValid(c, Subtree(tree, Runs()), run.name, x)
  {
    hide RunValid, Subtree, InventoryMatches, DescribesRun, RunInventory, DeliveryArtifacts, DeliveryDirectories,
      Dependencies;
  }

  lemma SameManifest(c: Context, runs: Tree, name: string, run: Run, copy: Tree, x: Manifest)
    requires Shippable(c, runs, name, run) && Subtree(copy, name) == Subtree(runs, name)
    requires RunValid(c, copy, run.name, x)
    ensures x == run.manifest && run.name == name
  {
    hide Subtree, Collected, ManifestExact, Listing, RunInventory, SiblingJournal, WellFormed, Inventoried, TotalSize,
      SourceRun.JournalObserved, RunManifestName, PublicSubsetName, ReferencePath;
  }

  lemma SealedDelivery(c: Context, runs: Tree, name: string, run: Run, d: Descriptor)
    requires Sealed(c, runs, name, run, d) && CopyPasses(c, runs, name, run)
    ensures WellFormed(Delivered(c, d)) && Accepts(c, Delivered(c, d), d)
  {
    hide Exportable, Accepts, Ready, Sealed, CopyPasses, Delivered;
    SealedExportable(c, runs, name, run, d);
    SealedFacts(c, runs, name, run, d);
    DeliveredAccepted(c, runs, name, run);
  }

  lemma SealedFacts(c: Context, runs: Tree, name: string, run: Run, d: Descriptor)
    requires Sealed(c, runs, name, run, d)
    ensures BindingsOf(DeliveryArtifacts(run), Under(RunDirectory(run.name), RunManifestName())) != []
    ensures d == Seal(run)
    ensures WellFormed(runs) && SoundContext(c) && SourceRun.Observable(c, runs, name, run) && RoundTrips(c, d)
  {
    hide SourceRun.Observable, Deliverable, Payloads, BindingsOf, DeliveryArtifacts, Seal, SoundContext, WellFormed,
      Under, RunDirectory, RunManifestName;
  }

  lemma SealedReady(c: Context, runs: Tree, name: string, run: Run, d: Descriptor)
    requires Sealed(c, runs, name, run, d)
    ensures Ready(c, runs, name, run, d.payload) && WellFormed(runs) && SourceRun.Observable(c, runs, name, run)
  {
    hide Ready, BindingsOf, DeliveryArtifacts, Seal, Under, RunDirectory, RunManifestName;
    assert Ready(c, runs, name, run, d.payload);
    ReadyObserved(c, runs, name, run, d.payload);
  }

  lemma ReadyObserved(c: Context, runs: Tree, name: string, run: Run, p: Payload)
    requires Ready(c, runs, name, run, p)
    ensures WellFormed(runs) && SourceRun.Observable(c, runs, name, run)
  {
    hide SourceRun.Observable, Deliverable, Payloads, SoundContext, WellFormed;
  }

  lemma AcceptedOnce(c: Context, tree: Tree, d: Descriptor, e: Descriptor)
    requires Accepts(c, tree, d) && Accepts(c, tree, e)
    ensures d == e
  {
    hide DescriptorExact, ContentsValid, Listing;
  }

  lemma Swap(image: Tree, a: string, b: string, x: Node, y: Node)
    requires a != b
    ensures image[a := x][b := y] == image[b := y][a := x]
  {
  }

  /** Verification of the finished wrapper, with the marker put back when anything fails. */
  method VerifyOrRestore(c: Context, runs: Tree, name: string, run: Run, d: Descriptor, m: Medium)
    returns (r: Result<Descriptor>)
    requires m.Valid() && Sealed(c, runs, name, run, d) && CopyPasses(c, runs, name, run)
    requires m.tree == Delivered(c, d) && MarkerName() !in m.tree
    modifies m
    ensures m.Valid() && old(m.trace) <= m.trace && Around(m.trace, |old(m.trace)|, Delivered(c, d))
    ensures r.Ok? ==> r.value == d && m.tree == Delivered(c, d) && m.faults == old(m.faults)
    ensures r.Err? ==> m.faults > old(m.faults)
    ensures r.Err? ==> MarkerName() in m.tree || (m.tree == Delivered(c, d) && m.faults > old(m.faults) + 1)
  {
    hide Sealed, CopyPasses, Delivered, Accepts, MarkerName, MarkerContent, WellFormed;
    SealedDelivery(c, runs, name, run, d);
    var ok := m.Check();
    if ok {
      r := VerifyCompleteForensicBundle(c, m.tree);
      AcceptedOnce(c, m.tree, d, if r.Ok? then r.value else d);
      ok := m.Check();
      if ok {
        return;
      }
    }
    var restored := m.WriteMarker();
    return Err;
  }

  /** Observes the source again and checks the copied contents. */
  method CheckCopy(c: Context, runs: Tree, name: string, run: Run, d: Descriptor, m: Medium) returns (ok: bool)
    requires m.Valid() && Sealed(c, runs, name, run, d) && m.tree == WithMarker(Image(d.payload))
    modifies m`script, m`faults
    ensures m.Valid()
    ensures ok ==> m.faults == old(m.faults) && CopyPasses(c, runs, name, run)
    ensures !ok ==> m.faults > old(m.faults) || (m.faults == old(m.faults) && !CopyPasses(c, runs, name, run))
  {
    hide Sealed, CopyPasses, Image, MarkerName, WellFormed, ContentsValid, SourceRun.Observable, Ready, Seal, BindingsOf,
      WithMarker;
    SealedReady(c, runs, name, run, d);
    ok := m.Check();
    if !ok {
      return;
    }
    var again := SourceRun.ObserveSource(c, runs, name);
    SourceRun.ObservableUnique(c, runs, name, run, if again.Ok? then again.value else run);
    assert again == Ok(run);
    MarkedWellFormed(c, runs, name, run, d.payload);
    CopyChecked(c, runs, name, run, d);
    ok := m.Check();
    if ok {
      ok := ValidateDeliveryContents(c, m.tree, d.payload);
    }
  }

  /** Writes the descriptor beside the marker. */
  method WriteDescriptor(c: Context, ghost image: Tree, d: Descriptor, m: Medium) returns (ok: bool)
    requires m.Valid() && m.tree == WithMarker(image)
    requires MarkerName() !in image && DescriptorName() !in image && MarkerName() != DescriptorName()
    modifies m
    ensures m.Valid() && old(m.trace) <= m.trace && Marked(m.trace, |old(m.trace)|) && MarkerName() in m.tree
    ensures ok ==> m.tree == WithMarker(image[DescriptorName() := File(c.encodeDescriptor(d), 1)])
    ensures ok ==> m.faults == old(m.faults)
    ensures !ok ==> m.faults > old(m.faults)
  {
    hide MarkerName, MarkerContent, DescriptorName;
    ok := m.PlaceFile(DescriptorName(), c.encodeDescriptor(d));
    MarkerStays(old(m.tree), m.trace, |old(m.trace)|, m.tree);
    Swap(image, MarkerName(), DescriptorName(), File(MarkerContent(), 1), File(c.encodeDescriptor(d), 1));
  }

  /** Checks the copy, writes the descriptor, removes the marker and verifies. */
  method Finish(c: Context, runs: Tree, name: string, run: Run, d: Descriptor, m: Medium)
    returns (r: Result<Descriptor>)
    requires m.Valid() && Sealed(c, runs, name, run, d) && m.tree == WithMarker(Image(d.payload))
    modifies m
    ensures m.Valid() && old(m.trace) <= m.trace && Around(m.trace, |old(m.trace)|, Delivered(c, d))
    ensures r.Ok? ==> && r.value == d && m.tree == Delivered(c, d) && m.faults == old(m.faults)
                      && CopyPasses(c, runs, name, run)
    ensures r.Err? ==> m.faults > old(m.faults) || (m.faults == old(m.faults) && !CopyPasses(c, runs, name, run))
    ensures r.Err? ==> MarkerName() in m.tree || (m.tree == Delivered(c, d) && m.faults > old(m.faults) + 1)
  {
    hide Sealed, CopyPasses, Image, MarkerName, MarkerContent, Ready, DescriptorName, Around, Marked, Delivered,
      WellFormed, SourceRun.Observable;
    SealedReady(c, runs, name, run, d);
    MarkerApart(c, runs, name, run, d.payload);
    ghost var delivery := Delivered(c, d);
    DeliveredIs(c, d);
    MarkerInMarked(Image(d.payload));
    NoStates(m.trace, delivery);
    var ok := CheckCopy(c, runs, name, run, d, m);
    if !ok {
      return Err;
    }
    ok := WriteDescriptor(c, Image(d.payload), d, m);
    ghost var written := m.trace;
    MarkedIsAround(written, |old(m.trace)|, delivery);
    if !ok {
      return Err;
    }
    ok := m.RemoveMarker(delivery);
    ghost var removed := m.trace;
    JoinAround(written, removed, |old(m.trace)|, delivery);
    if !ok {
      return Err;
    }
    r := VerifyOrRestore(c, runs, name, run, d, m);
    JoinAround(removed, m.trace, |old(m.trace)|, delivery);
  }

  lemma DeliveredIs(c: Context, d: Descriptor)
    ensures Delivered(c, d) == Image(d.payload)[DescriptorName() := File(c.encodeDescriptor(d), 1)]
    ensures MarkerName() !in Image(d.payload) && MarkerName() != DescriptorName() ==> MarkerName() !in Delivered(c, d)
  {
    hide Image, MarkerName, DescriptorName;
  }

  lemma NoStates(trace: seq<Tree>, delivery: Tree)
    ensures Around(trace, |trace|, delivery)
  {
  }

  lemma MarkedIsAround(trace: seq<Tree>, from: nat, delivery: Tree)
    requires Marked(trace, from)
    ensures Around(trace, from, delivery)
  {
  }

  lemma JoinAround(a: seq<Tree>, b: seq<Tree>, from: nat, delivery: Tree)
    requires a <= b && from <= |a| && Around(a, from, delivery) && Around(b, |a|, delivery)
    ensures Around(b, from, delivery)
  {
    hide MarkerName;
    forall i | from <= i < |b| ensures b[i] == delivery || MarkerName() in b[i] {
      if i < |a| { assert a[i] == b[i]; }
    }
  }

  lemma MarkerStays(before: Tree, trace: seq<Tree>, from: nat, tree: Tree)
    requires MarkerName() in before && MarkerName() != DescriptorName()
    requires forall i :: from <= i < |trace| ==> trace[i] - {DescriptorName()} == before - {DescriptorName()}
    requires tree - {DescriptorName()} == before - {DescriptorName()}
    ensures Marked(trace, from) && MarkerName() in tree
  {
    hide MarkerName, DescriptorName;
    assert MarkerName() in before - {DescriptorName()};
    assert MarkerName() in tree - {DescriptorName()};
    forall i | from <= i < |trace| ensures MarkerName() in trace[i] {
      assert MarkerName() in trace[i] - {DescriptorName()};
    }
  }

  // ---------------------------------------------------------------- the export

  predicate HasManifest(run: Run) {
    BindingsOf(DeliveryArtifacts(run), Under(RunDirectory(run.name), RunManifestName())) != []
  }

  /** The validators pass exactly on the observed runs that can be delivered. */
  lemma SealDecides(c: Context, runs: Tree, name: string, run: Run)
    requires SoundContext(c) && WellFormed(runs) && SourceRun.Observable(c, runs, name, run) && HasManifest(run)
    ensures DescriptorExact(c.rules, Seal(run)) <==> Deliverable(c.rules, run)
    ensures DescriptorExact(c.rules, Seal(run)) ==> Ready(c, runs, name, run, Seal(run).payload)
  {
    hide SourceRun.Observable, WellFormed, SoundContext, DescriptorExact, BindingsOf, DeliveryArtifacts, Deliverable,
      Payloads, Seal, Under, RunDirectory, RunManifestName, DescribesRun, Observed, Sound;
    SoundRules(c);
    SealedPayload(c, runs, name, run);
    JournalDependency(c, runs, name, run);
    SealMeetsValidators(c.rules, run);
  }

  lemma SealedIs(c: Context, runs: Tree, name: string, run: Run, d: Descriptor)
    requires HasManifest(run) && d == Seal(run) && Ready(c, runs, name, run, d.payload)
    requires |c.encodeDescriptor(d)| <= MAX_EVIDENCE_BYTES && RoundTrips(c, d)
    ensures Sealed(c, runs, name, run, d)
  {
    hide Ready, BindingsOf, DeliveryArtifacts, Seal, Under, RunDirectory, RunManifestName;
  }

  lemma ExportableFits(c: Context, runs: Tree, name: string, run: Run)
    requires Exportable(c, runs, name, run)
    ensures HasManifest(run) && Deliverable(c.rules, run)
    ensures PortablePaths.Portable(
              c.rules.tables, [DescriptorName()] + Paths(DeliveryArtifacts(run)), DeliveryDirectories(run))
    ensures |c.encodeDescriptor(Seal(run))| <= MAX_EVIDENCE_BYTES
  {
    hide SourceRun.Observable, BindingsOf, DeliveryArtifacts, DeliveryDirectories, Seal, Under, RunDirectory,
      RunManifestName, DescriptorName, Subtree, DeliveredJournal, WithinBounds, PortablePaths.Portable;
  }

  /** `_seal_descriptor` and the size check on its encoding. */
  method SealDescriptor(c: Context, runs: Tree, name: string, run: Run) returns (r: Result<Descriptor>)
    requires SoundContext(c) && WellFormed(runs) && SourceRun.Observable(c, runs, name, run)
    requires HasManifest(run) ==> RoundTrips(c, Sealing(run))
    ensures r.Ok? ==> Sealed(c, runs, name, run, r.value)
    ensures r.Err? ==> !Exportable(c, runs, name, run)
  {
    hide SourceRun.Observable, WellFormed, SoundContext, DescriptorExact, HasManifest, Deliverable, Seal, Ready, Sealed,
      Exportable, PortablePaths.Portable, DeliveryArtifacts, DeliveryDirectories, DescriptorName;
    if Exportable(c, runs, name, run) { ExportableFits(c, runs, name, run); }
    var portable := PortablePaths.RequirePortablePaths(
      c.rules.tables, [DescriptorName()] + Paths(DeliveryArtifacts(run)), DeliveryDirectories(run));
    if !portable || !HasManifest(run) {
      return Err;
    }
    SealDecides(c, runs, name, run);
    var d := Sealing(run);
    if !DescriptorExact(c.rules, d) || |c.encodeDescriptor(d)| > MAX_EVIDENCE_BYTES {
      return Err;
    }
    SealedIs(c, runs, name, run, d);
    return Ok(d);
  }

  /** The sealed descriptor of a run with a manifest. */
  function Sealing(run: Run): (d: Descriptor)
    requires HasManifest(run)
    ensures BindingsOf(DeliveryArtifacts(run), Under(RunDirectory(run.name), RunManifestName())) != [] && d == Seal(run)
  {
    Seal(run)
  }

  lemma SoundRules(c: Context)
    requires SoundContext(c)
    ensures Sound(c.rules)
  {
  }

  /** All states from `from` on are unfinished or the complete delivery. */
  ghost predicate SafeStates(trace: seq<Tree>, from: nat, delivery: Tree) {
    forall i :: from <= i < |trace| ==> Unfinished(trace[i]) || trace[i] == delivery
  }

  lemma JoinStates(a: seq<Tree>, b: seq<Tree>, from: nat, delivery: Tree)
    requires a <= b && from <= |a| && SafeStates(a, from, delivery) && SafeStates(b, |a|, delivery)
    ensures SafeStates(b, from, delivery)
  {
    hide Unfinished;
    forall i | from <= i < |b| ensures Unfinished(b[i]) || b[i] == delivery {
      if i < |a| { assert a[i] == b[i]; }
    }
  }

  lemma MarkedSafe(trace: seq<Tree>, from: nat, delivery: Tree)
    ensures Marked(trace, from) ==> SafeStates(trace, from, delivery)
    ensures Around(trace, from, delivery) ==> SafeStates(trace, from, delivery)
  {
    hide MarkerName, DescriptorName;
  }

  /** Creates the wrapper and marks it. */
  method Begin(m: Medium, ghost delivery: Tree) returns (ok: bool)
    requires m.Valid() && m.tree == map[]
    modifies m
    ensures m.Valid() && old(m.trace) <= m.trace && SafeStates(m.trace, |old(m.trace)|, delivery)
    ensures ok ==> m.tree == WithMarker(EmptyWrapper()) && m.faults == old(m.faults)
    ensures !ok ==> m.faults > old(m.faults) && (Blank(m.tree) || MarkerName() in m.tree)
  {
    hide MarkerName, MarkerContent, DescriptorName, WithMarker, Blank;
    BlankUnfinished();
    ok := CreateWrapper(m);
    if ok {
      ok := MarkWrapper(m);
    }
  }

  lemma BlankUnfinished()
    ensures forall t :: Blank(t) ==> Unfinished(t)
  {
    TopNames();
  }

  lemma LastMarked(trace: seq<Tree>, before: seq<Tree>)
    requires before != [] && before <= trace && MarkerName() in before[|before| - 1] && Marked(trace, |before|)
    ensures MarkerName() in trace[|trace| - 1]
  {
  }

  lemma MarkerInMarked(tree: Tree)
    ensures MarkerName() in WithMarker(tree)
  {
  }

  /** The writing part of the export. */
  method Publish(c: Context, runs: Tree, name: string, run: Run, d: Descriptor, m: Medium)
    returns (r: Result<Descriptor>)
    requires m.Valid() && m.tree == map[] && Sealed(c, runs, name, run, d)
    modifies m
    ensures m.Valid() && old(m.trace) <= m.trace && SafeStates(m.trace, |old(m.trace)|, Delivered(c, d))
    ensures r.Ok? ==> && r.value == d && m.tree == Delivered(c, d) && m.faults == old(m.faults)
                      && CopyPasses(c, runs, name, run)
    ensures r.Err? ==> m.faults > old(m.faults) || (m.faults == old(m.faults) && !CopyPasses(c, runs, name, run))
    ensures r.Err? ==> || Blank(m.tree) || MarkerName() in m.tree
                       || (m.tree == Delivered(c, d) && m.faults > old(m.faults) + 1)
  {
    hide Sealed, CopyPasses, Image, MarkerName, MarkerContent, Ready, Delivered, WithMarker, SafeStates, Marked, Around,
      Blank, EmptyWrapper, WellFormed, SourceRun.Observable;
    ghost var delivery := Delivered(c, d);
    var ok := Begin(m, delivery);
    if !ok {
      return Err;
    }
    SealedReady(c, runs, name, run, d);
    ghost var begun := m.trace;
    MarkerInMarked(EmptyWrapper());
    ok := Fill(c, runs, name, run, d.payload, m);
    ghost var filled := m.trace;
    MarkedSafe(filled, |begun|, delivery);
    JoinStates(begun, filled, |old(m.trace)|, delivery);
    LastMarked(filled, begun);
    if !ok {
      return Err;
    }
    r := Finish(c, runs, name, run, d, m);
    MarkedSafe(m.trace, |filled|, delivery);
    JoinStates(filled, m.trace, |old(m.trace)|, delivery);
  }

  /** `export_complete_forensic_bundle`. Whatever calls fail, every state the wrapper passes through is
      rejected by verification or is the complete delivery of the observed run. With at most one
      failed call, an export that fails leaves a wrapper that verification rejects. An export that
      returns leaves the complete delivery, and verification accepts it. When no call fails, it returns
      exactly for acknowledged requests with a fresh destination and an exportable run. */
  method ExportCompleteForensicBundle(c: Context, runs: Tree, name: string, acknowledged: bool, m: Medium)
    returns (r: Result<Descriptor>)
    requires m.Valid() && SoundContext(c) && WellFormed(runs)
    requires forall run :: SourceRun.Observable(c, runs, name, run) && HasManifest(run) ==> RoundTrips(c, Sealing(run))
    modifies m
    ensures m.Valid() && old(m.trace) <= m.trace
    ensures forall i, d :: |old(m.trace)| <= i < |m.trace| && Accepts(c, m.trace[i], d) ==>
              IsDeliveryOf(c, runs, name, m.trace[i], d)
    ensures r.Ok? ==> Accepts(c, m.tree, r.value) && IsDeliveryOf(c, runs, name, m.tree, r.value)
    ensures r.Err? && old(m.tree) == map[] && m.faults <= old(m.faults) + 1 ==> forall d :: !Accepts(c, m.tree, d)
    ensures old(m.tree) != map[] ==> r.Err? && m.tree == old(m.tree) && m.trace == old(m.trace)
    ensures m.faults == old(m.faults) ==>
              (r.Ok? <==> acknowledged && old(m.tree) == map[] && exists run :: Exportable(c, runs, name, run))
  {
    hide SoundContext, WellFormed, Sealed, Accepts, Exportable, SourceRun.Observable, Delivered, SafeStates, CopyPasses,
      Blank, MarkerName, IsDeliveryOf;
    ghost var start := m.trace;
    if !acknowledged || m.tree != map[] {
      if m.tree == map[] { EmptyRejected(c); }
      return Err;
    }
    EmptyRejected(c);
    var ok := m.Check();
    if !ok {
      return Err;
    }
    var observed := SourceRun.ObserveSource(c, runs, name);
    if observed.Err? {
      OnlyObservable(c, runs, name);
      return Err;
    }
    var run := observed.value;
    OneExportable(c, runs, name, run);
    var sealed := SealDescriptor(c, runs, name, run);
    if sealed.Err? {
      return Err;
    }
    var d := sealed.value;
    SealedExportable(c, runs, name, run, d);
    r := Publish(c, runs, name, run, d, m);
    OnlyTheDelivery(c, runs, name, run, d, m.trace, |start|);
    if r.Ok? {
      SealedDelivery(c, runs, name, run, d);
    } else {
      Rejected(c, m.tree);
    }
    DeliveryIs(c, runs, name, run, d);
  }

  /** The tree is the complete delivery of the observed run, under its sealed descriptor. */
  ghost predicate IsDeliveryOf(c: Context, runs: Tree, name: string, tree: Tree, d: Descriptor) {
    && tree == Delivered(c, d)
    && exists run :: SourceRun.Observable(c, runs, name, run) && HasManifest(run) && d == Sealing(run)
  }

  lemma DeliveryIs(c: Context, runs: Tree, name: string, run: Run, d: Descriptor)
    requires Sealed(c, runs, name, run, d)
    ensures IsDeliveryOf(c, runs, name, Delivered(c, d), d)
  {
    hide SoundContext, WellFormed, SourceRun.Observable, Delivered, BindingsOf, DeliveryArtifacts, Seal, Ready, Sealed;
    SealedFacts(c, runs, name, run, d);
    assert HasManifest(run) && d == Sealing(run);
  }

  lemma EmptyRejected(c: Context)
    ensures forall d :: !Accepts(c, map[], d)
  {
    forall d ensures !Accepts(c, map[], d) { UnfinishedRejected(c, map[], d); }
  }

  lemma OnlyObservable(c: Context, runs: Tree, name: string)
    requires forall run :: !SourceRun.Observable(c, runs, name, run)
    ensures forall run :: !Exportable(c, runs, name, run)
  {
    hide SourceRun.Observable;
    forall run ensures !Exportable(c, runs, name, run) { ExportableObserved(c, runs, name, run); }
  }

  lemma ExportableObserved(c: Context, runs: Tree, name: string, run: Run)
    ensures Exportable(c, runs, name, run) ==> SourceRun.Observable(c, runs, name, run)
  {
  }

  lemma OneExportable(c: Context, runs: Tree, name: string, run: Run)
    requires SourceRun.Observable(c, runs, name, run)
    ensures forall x :: Exportable(c, runs, name, x) ==> x == run
  {
    hide SourceRun.Observable, Exportable;
    forall x | Exportable(c, runs, name, x) ensures x == run {
      ExportableObserved(c, runs, name, x);
      SourceRun.ObservableUnique(c, runs, name, x, run);
    }
  }

  lemma OnlyTheDelivery(c: Context, runs: Tree, name: string, run: Run, d: Descriptor, trace: seq<Tree>, from: nat)
    requires Sealed(c, runs, name, run, d) && SafeStates(trace, from, Delivered(c, d))
    ensures forall i, e :: from <= i < |trace| && Accepts(c, trace[i], e) ==> IsDeliveryOf(c, runs, name, trace[i], e)
  {
    hide Sealed, Accepts, Delivered, Unfinished, IsDeliveryOf;
    DeliveryIs(c, runs, name, run, d);
    forall i, e | from <= i < |trace| && Accepts(c, trace[i], e) ensures IsDeliveryOf(c, runs, name, trace[i], e) {
      if Unfinished(trace[i]) { UnfinishedRejected(c, trace[i], e); }
      SealedFacts(c, runs, name, run, d);
      DeliveredDescriptor(c, d, e);
    }
  }

  lemma DeliveredDescriptor(c: Context, d: Descriptor, e: Descriptor)
    requires RoundTrips(c, d) && Accepts(c, Delivered(c, d), e)
    ensures e == d
  {
    hide Image, DescriptorExact, ContentsValid, Listing, Runs, DescriptorName, MarkerName;
  }

  lemma Rejected(c: Context, tree: Tree)
    ensures Blank(tree) || MarkerName() in tree ==> forall d :: !Accepts(c, tree, d)
  {
    hide Accepts, Blank, DescriptorName, MarkerName;
    BlankUnfinished();
    if Unfinished(tree) { forall d ensures !Accepts(c, tree, d) { UnfinishedRejected(c, tree, d); } }
  }
}
