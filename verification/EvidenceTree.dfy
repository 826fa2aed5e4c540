/** The bridge between the two models of a file system: seen through paths below a root, what the
    descriptor-level writers do to a disk is one step on a directory tree. */
module EvidenceTree {
  import opened Text
  import opened FileSystem
  import opened EvidenceReading
  import opened EvidenceWriting
  import Trees

  function Shown(node: Node): Trees.Node {
    match node
    case Regular(content, links, _) => Trees.File(content, links)
    case Folder(_, _) => Trees.Directory
    case Special => Trees.Special
  }

  /** What a path below the root shows. */
  function View(d: Disk, root: string, path: seq<string>): Option<Trees.Node> {
    if path == [] then if RootAvailable(d, root) then Some(Trees.Directory) else None
    else
      var dir := Reached(d, root, Above(path));
      var i := if dir.None? then None else Lookup(d, dir.value, Leaf(path));
      if i.None? then None else Some(Shown(d.inodes[i.value].node))
  }

  ghost predicate NothingDangles(d: Disk) {
    forall i, name :: i in d.inodes && d.inodes[i].node.Folder? && name in d.inodes[i].node.entries ==>
      d.inodes[i].node.entries[name] in d.inodes
  }

  /** As on a real disk: every entry leads somewhere and no directory is reached in two ways. */
  ghost predicate TreeLike(d: Disk, root: string) {
    && NothingDangles(d)
    && forall p, q :: Reached(d, root, p).Some? && Reached(d, root, p) == Reached(d, root, q) ==> p == q
  }

  lemma LookupAfter(a: Disk, b: Disk, dir: Ino, leaf: string, i: Ino, d: Ino, name: string)
    requires (Added(a, b, dir, leaf, i) || Kept(a, b)) && NothingDangles(a) && d in a.inodes
    ensures Lookup(b, d, name) ==
            if Added(a, b, dir, leaf, i) && d == dir && name == leaf then Some(i) else Lookup(a, d, name)
  {
  }

  lemma {:induction false} DescendAfter(a: Disk, b: Disk, dir: Ino, leaf: string, i: Ino, d: Ino, parts: seq<string>)
    requires (Added(a, b, dir, leaf, i) || Kept(a, b)) && NothingDangles(a) && d in a.inodes
    ensures Descend(b, d, parts) == Descend(a, d, parts)
    ensures Descend(a, d, parts).Some? ==> Descend(a, d, parts).value in a.inodes
    decreases |parts|
  {
    hide Lookup, NothingDangles;
    if parts != [] {
      var n := |parts| - 1;
      DescendAfter(a, b, dir, leaf, i, d, parts[..n]);
      var mid := Descend(a, d, parts[..n]);
      if mid.Some? {
        LookupAfter(a, b, dir, leaf, i, mid.value, parts[n]);
        if Added(a, b, dir, leaf, i) { NoEntry(a, dir, leaf); }
      }
    }
  }

  lemma ReachedAfter(a: Disk, b: Disk, dir: Ino, leaf: string, i: Ino, root: string, parts: seq<string>)
    requires (Added(a, b, dir, leaf, i) || Kept(a, b)) && NothingDangles(a)
    requires RootAvailable(a, root)
    ensures RootAvailable(b, root) && Reached(b, root, parts) == Reached(a, root, parts)
    ensures Reached(a, root, parts).Some? ==> Reached(a, root, parts).value in a.inodes
  {
    hide Descend, NothingDangles;
    DescendAfter(a, b, dir, leaf, i, a.roots[root], parts);
  }

  /** A placed file shows at its path and nowhere else, and nothing else looks different. */
  lemma PlacedShows(a: Disk, b: Disk, root: string, parts: seq<string>, t: Target, path: seq<string>)
    requires parts != [] && TreeLike(a, root) && Placed(a, b, root, parts, t)
    ensures View(a, root, parts).None?
    ensures View(b, root, path) ==
            if path == parts then Some(Trees.File(b.inodes[t.ino].node.content, 1)) else View(a, root, path)
  {
    hide Descend, Lookup, NothingDangles;
    RootedExists(a, root, t.handle);
    ReachedAfter(a, b, t.parent, Leaf(parts), t.ino, root, Above(parts));
    assert Lookup(a, t.parent, Leaf(parts)).None? by { NoEntry(a, t.parent, Leaf(parts)); }
    if path != [] {
      ReachedAfter(a, b, t.parent, Leaf(parts), t.ino, root, Above(path));
      var dir := Reached(a, root, Above(path));
      if dir.Some? { LookupAfter(a, b, t.parent, Leaf(parts), t.ino, dir.value, Leaf(path)); }
      if dir == Some(t.parent) && Leaf(path) == Leaf(parts) {
        assert path == Above(path) + [Leaf(path)] && parts == Above(parts) + [Leaf(parts)];
      }
    }
  }

  lemma NoEntry(a: Disk, dir: Ino, leaf: string)
    requires dir in a.inodes && a.inodes[dir].node.Folder? && leaf !in a.inodes[dir].node.entries
    ensures Lookup(a, dir, leaf).None?
  {
  }

  /** A call that took everything back shows nothing. */
  lemma KeptShows(a: Disk, b: Disk, root: string, path: seq<string>)
    requires NothingDangles(a) && RootAvailable(a, root) && Kept(a, b)
    ensures View(b, root, path) == View(a, root, path)
  {
    hide Descend, Lookup, NothingDangles;
    if path != [] {
      ReachedAfter(a, b, 0, "", 0, root, Above(path));
      var dir := Reached(a, root, Above(path));
      if dir.Some? { LookupAfter(a, b, 0, "", 0, dir.value, Leaf(path)); }
    }
  }

  /** What the writers promise of every instant on their way: no path but the file's own ever shows anything
      different, and that one shows nothing or an unshared file. */
  lemma TouchedShows(a: Disk, b: Disk, root: string, parts: seq<string>, path: seq<string>)
    requires parts != [] && TreeLike(a, root) && RootAvailable(a, root) && Touched(a, b, root, parts)
    ensures path != parts ==> View(b, root, path) == View(a, root, path)
    ensures View(b, root, parts) == View(a, root, parts)
            || exists content :: View(b, root, parts) == Some(Trees.File(content, 1))
  {
    hide View, Placed, Kept, RootAvailable, TreeLike;
    if Kept(a, b) {
      NothingOfTree(a, root);
      KeptShows(a, b, root, path);
      KeptShows(a, b, root, parts);
    } else {
      var t :| Placed(a, b, root, parts, t);
      PlacedShows(a, b, root, parts, t, path);
      PlacedShows(a, b, root, parts, t, parts);
    }
  }

  /** So what one call leaves behind is a tree again for the next. */
  lemma TouchedKeepsTree(a: Disk, b: Disk, root: string, parts: seq<string>)
    requires parts != [] && TreeLike(a, root) && RootAvailable(a, root) && Touched(a, b, root, parts)
    ensures TreeLike(b, root) && RootAvailable(b, root)
  {
    hide Descend, Lookup, RootAvailable, Reached;
    var t := if Kept(a, b) then Target(RootHandle(0, 0), 0, 0) else var t :| Placed(a, b, root, parts, t); t;
    NothingNewDangles(a, b, t.parent, Leaf(parts), t.ino);
    ReachedAfter(a, b, t.parent, Leaf(parts), t.ino, root, []);
    forall p, q | Reached(b, root, p).Some? && Reached(b, root, p) == Reached(b, root, q) ensures p == q {
      ReachedAfter(a, b, t.parent, Leaf(parts), t.ino, root, p);
      ReachedAfter(a, b, t.parent, Leaf(parts), t.ino, root, q);
    }
  }

  lemma NothingNewDangles(a: Disk, b: Disk, dir: Ino, leaf: string, i: Ino)
    requires (Added(a, b, dir, leaf, i) || Kept(a, b)) && NothingDangles(a)
    ensures NothingDangles(b)
  {
    forall j, name | j in b.inodes && b.inodes[j].node.Folder? && name in b.inodes[j].node.entries
      ensures b.inodes[j].node.entries[name] in b.inodes
    {
      assert j in a.inodes && a.inodes[j].node.Folder?;
    }
  }

  lemma NothingOfTree(d: Disk, root: string)
    requires TreeLike(d, root)
    ensures NothingDangles(d)
  {
  }
}
