/** Creating evidence files: exclusive creation, writes that may be short, read-back, and the
    cleanup that takes back a file whose creation did not complete. */
module EvidenceWriting {
  import opened Text
  import opened FileSystem
  import opened EvidenceReading

  const PRIVATE_MODE: nat := 384  // 0o600

  /** SHA-256, taken to be injective: a digest is as good as the bytes it was made of. */
  datatype Digest = Sha256(preimage: Bytes)

  datatype FileBinding = FileBinding(path: seq<string>, sha256: Digest, size: nat)

  function Above(parts: seq<string>): seq<string>
    requires parts != []
  {
    parts[..|parts| - 1]
  }

  function Leaf(parts: seq<string>): string
    requires parts != []
  {
    parts[|parts| - 1]
  }

  // ---------------------------------------------------------------- effects without outside writers

  /** Every file and directory that was there is there unchanged; at most nameless files are left over. */
  ghost predicate Kept(a: Disk, b: Disk) {
    && b.roots == a.roots
    && (forall i :: i in a.inodes ==> i in b.inodes && b.inodes[i].node == a.inodes[i].node)
    && (forall i :: i in b.inodes && i !in a.inodes ==> b.inodes[i].node.Regular?)
  }

  /** Nothing changed, not even a time, but for one new entry of one new unshared file. */
  ghost predicate Added(a: Disk, b: Disk, dir: Ino, leaf: string, i: Ino) {
    && b.roots == a.roots
    && dir in a.inodes && a.inodes[dir].node.Folder? && leaf !in a.inodes[dir].node.entries
    && i !in a.inodes && b.inodes.Keys == a.inodes.Keys + {i} && b.inodes[i].node.Regular? && b.inodes[i].node.links == 1
    && (forall j :: j in a.inodes ==> j in b.inodes && b.inodes[j].node == NodeWith(a, dir, leaf, i, j))
    && (forall j :: j in a.inodes && j != dir ==> b.inodes[j] == a.inodes[j])
  }

  /** Inode `j` of `a` once `dir` has got the entry. */
  function NodeWith(a: Disk, dir: Ino, leaf: string, i: Ino, j: Ino): Node
    requires j in a.inodes
  {
    var node := a.inodes[j].node;
    if j == dir && node.Folder? then Folder(node.entries[leaf := i], node.mode) else node
  }

  /** Only file `i` was rewritten. */
  ghost predicate Rewritten(a: Disk, b: Disk, i: Ino) {
    && b.roots == a.roots && b.inodes.Keys == a.inodes.Keys
    && forall j :: j in a.inodes && j != i ==> b.inodes[j] == a.inodes[j]
  }

  /** The file was rewritten, and is still a file with as many links. */
  ghost predicate StillFile(a: Disk, b: Disk, i: Ino) {
    && Rewritten(a, b, i) && i in a.inodes && i in b.inodes
    && a.inodes[i].node.Regular? && b.inodes[i].node.Regular? && b.inodes[i].node.links == a.inodes[i].node.links
  }

  /** Nothing but that happened since instant `from`. */
  ghost predicate Rewriting(a: Disk, trace: seq<Disk>, from: nat, i: Ino) {
    forall j :: from <= j < |trace| ==> StillFile(a, trace[j], i)
  }

  lemma RewritingStep(a: Disk, trace: seq<Disk>, from: nat, d: Disk, i: Ino)
    requires Rewriting(a, trace, from, i) && StillFile(a, d, i)
    ensures Rewriting(a, trace + [d], from, i)
  {
    hide StillFile;
  }

  lemma RewritingJoins(a: Disk, b: Disk, trace: seq<Disk>, trace': seq<Disk>, from: nat, i: Ino)
    requires Rewriting(a, trace, from, i) && StillFile(a, b, i)
    requires trace <= trace' && Rewriting(b, trace', |trace|, i)
    ensures Rewriting(a, trace', from, i)
  {
    forall j | from <= j < |trace'| ensures StillFile(a, trace'[j], i) {
      if j < |trace| { assert trace'[j] == trace[j]; }
    }
  }

  lemma CreatedAdds(a: Disk, dir: Ino, leaf: string, mode: nat)
    requires Good(a) && CanCreate(a, dir, leaf)
    ensures Added(a, Created(a, dir, leaf, mode), dir, leaf, a.clock)
  {
  }

  lemma CreatedNode(a: Disk, dir: Ino, leaf: string, mode: nat)
    requires Good(a) && CanCreate(a, dir, leaf)
    ensures a.clock in Created(a, dir, leaf, mode).inodes
    ensures Created(a, dir, leaf, mode).inodes[a.clock].node == Regular([], 1, mode)
  {
  }

  lemma RewrittenAdded(a: Disk, b: Disk, c: Disk, dir: Ino, leaf: string, i: Ino)
    requires Added(a, b, dir, leaf, i) && Rewritten(b, c, i)
    requires c.inodes[i].node.Regular? && c.inodes[i].node.links == 1
    ensures Added(a, c, dir, leaf, i)
  {
  }

  lemma UnlinkRestores(a: Disk, b: Disk, dir: Ino, leaf: string, i: Ino)
    requires Added(a, b, dir, leaf, i)
    ensures Lookup(b, dir, leaf) == Some(i) && CanUnlink(b, dir, leaf)
    ensures Kept(a, Unlinked(b, dir, leaf))
  {
    var entries := a.inodes[dir].node.entries;
    assert entries[leaf := i] - {leaf} == entries;
  }

  /** Looking up an old entry gives what it gave. */
  lemma LookupStays(a: Disk, b: Disk, dir: Ino, leaf: string, i: Ino, d: Ino, name: string)
    requires Added(a, b, dir, leaf, i) || Kept(a, b)
    requires Lookup(a, d, name).Some?
    ensures Lookup(b, d, name) == Lookup(a, d, name)
  {
  }

  lemma {:induction false} DescendStays(a: Disk, b: Disk, dir: Ino, leaf: string, i: Ino, d: Ino, parts: seq<string>)
    requires Added(a, b, dir, leaf, i) || Kept(a, b)
    requires d in a.inodes && Descend(a, d, parts).Some?
    ensures Descend(b, d, parts) == Descend(a, d, parts)
    ensures Descend(a, d, parts).value in a.inodes
    decreases |parts|
  {
    if parts != [] {
      var n := |parts| - 1;
      DescendStays(a, b, dir, leaf, i, d, parts[..n]);
      LookupStays(a, b, dir, leaf, i, Descend(a, d, parts[..n]).value, parts[n]);
    }
  }

  /** A created file that the program holds on to. */
  datatype Target = Target(handle: RootHandle, parent: Ino, ino: Ino)

  /** The target sits at the end of the path and is the only change since `a`. */
  ghost predicate Placed(a: Disk, b: Disk, root: string, parts: seq<string>, t: Target)
    requires parts != []
  {
    && Rooted(a, root, t.handle)
    && Descend(a, t.handle.ino, Above(parts)) == Some(t.parent)
    && Added(a, b, t.parent, Leaf(parts), t.ino)
  }

  /** At most the one file at the end of the path was added. */
  ghost predicate Touched(a: Disk, b: Disk, root: string, parts: seq<string>)
    requires parts != []
  {
    Kept(a, b) || exists t :: Placed(a, b, root, parts, t)
  }

  /** At every instant since `from`. */
  ghost predicate Touching(a: Disk, trace: seq<Disk>, from: nat, root: string, parts: seq<string>)
    requires parts != []
  {
    forall j :: from <= j < |trace| ==> Touched(a, trace[j], root, parts)
  }

  lemma TouchingJoins(a: Disk, trace: seq<Disk>, trace': seq<Disk>, from: nat, root: string, parts: seq<string>)
    requires parts != [] && Touching(a, trace, from, root, parts)
    requires trace <= trace' && Touching(a, trace', |trace|, root, parts)
    ensures Touching(a, trace', from, root, parts)
  {
    hide Touched;
    forall j | from <= j < |trace'| ensures Touched(a, trace'[j], root, parts) {
      if j < |trace| { assert trace'[j] == trace[j]; }
    }
  }

  /** Rewriting a placed file leaves it placed, at every instant. */
  lemma PlacedRewriting(a: Disk, b: Disk, trace: seq<Disk>, from: nat, root: string, parts: seq<string>, t: Target)
    requires parts != [] && Placed(a, b, root, parts, t) && Rewriting(b, trace, from, t.ino)
    ensures Touching(a, trace, from, root, parts)
  {
    hide Placed;
    AddedFile(a, b, root, parts, t);
    forall j | from <= j < |trace| ensures Touched(a, trace[j], root, parts) {
      RewrittenPlaced(a, b, trace[j], root, parts, t);
    }
  }

  /** What a call has done to a disk without outside writers. `Stray` is a file whose identity was
      not recorded; `Recorded` carries the number of failed calls when its cleanup began. */
  datatype Effect = Nothing | Stray(target: Target) | Recorded(target: Target, faults: nat)

  /** The path already names something. */
  predicate Occupied(d: Disk, root: string, parts: seq<string>)
    requires parts != []
  {
    var dir := Reached(d, root, Above(parts));
    && dir.Some? && dir.value in d.inodes
    && d.inodes[dir.value].node.Folder? && Leaf(parts) in d.inodes[dir.value].node.entries
  }

  /** The path leads to a directory without an entry of this name. */
  predicate Free(d: Disk, root: string, parts: seq<string>)
    requires parts != []
  {
    var dir := Reached(d, root, Above(parts));
    dir.Some? && CanCreate(d, dir.value, Leaf(parts))
  }

  // ---------------------------------------------------------------- writing

  /** The loop over a memory view: `os.write` until nothing is left, failing when a call makes no
      progress. */
  method WriteAll(k: Kernel, i: Ino, offset: nat, data: Bytes) returns (ok: bool)
    requires k.Valid() && i in k.disk.inodes
    modifies k
    ensures k.Valid() && old(k.trace) <= k.trace && i in k.disk.inodes
    ensures Quiet(old(k.script)) ==> Quiet(k.script)
    ensures Quiet(old(k.script)) && old(k.disk).inodes[i].node.Regular?
            && |old(k.disk).inodes[i].node.content| == offset ==>
              var node := old(k.disk).inodes[i].node;
              && Rewritten(old(k.disk), k.disk, i)
              && k.disk.inodes[i].node.Regular?
              && k.disk.inodes[i].node.links == node.links && k.disk.inodes[i].node.mode == node.mode
              && (if ok then k.disk.inodes[i].node.content == node.content + data else k.faults > old(k.faults))
              && Rewriting(old(k.disk), k.trace, |old(k.trace)|, i)
    ensures k.faults >= old(k.faults)
  {
    ghost var start := k.disk;
    var view := data;
    var at := offset;
    while view != []
      invariant k.Valid() && old(k.trace) <= k.trace && i in k.disk.inodes && k.faults >= old(k.faults)
      invariant Quiet(old(k.script)) ==> Quiet(k.script)
      invariant |view| <= |data| && view == data[|data| - |view|..]
      invariant at == offset + |data| - |view|
      invariant Quiet(old(k.script)) && start.inodes[i].node.Regular? && |start.inodes[i].node.content| == offset ==>
        var node := start.inodes[i].node;
        && Rewritten(start, k.disk, i)
        && k.disk.inodes[i].node == Regular(node.content + data[..|data| - |view|], node.links, node.mode)
        && Rewriting(start, k.trace, |old(k.trace)|, i)
      decreases |view|
    {
      ghost var trace0 := k.trace;
      var written := k.Write(i, at, view);
      if Quiet(old(k.script)) && written.Some?
         && start.inodes[i].node.Regular? && |start.inodes[i].node.content| == offset {
        RewritingStep(start, trace0, |old(k.trace)|, k.disk, i);
      }
      if written.None? || written.value == 0 { return false; }
      ghost var n := |data| - |view|;
      assert data[..n] + view[..written.value] == data[..n + written.value];
      at := at + written.value;
      view := view[written.value..];
    }
    ok := true;
  }

  /** The outcome of creating a fresh private file. */
  datatype Creation = Fresh(target: Target) | Refused(recorded: Option<Target>)

  function EmptyFile(): Node {
    Regular([], 1, PRIVATE_MODE)
  }

  /** Since instant `from` the entry is there and nothing else changed. */
  ghost predicate Adding(a: Disk, trace: seq<Disk>, from: nat, dir: Ino, leaf: string, i: Ino) {
    forall j :: from <= j < |trace| ==> Added(a, trace[j], dir, leaf, i)
  }

  /** Exclusive creation and `os.fchmod`. */
  method CreatePrivate(k: Kernel, dir: Ino, leaf: string) returns (r: Option<Ino>, moded: bool)
    requires k.Valid()
    modifies k
    ensures k.Valid() && old(k.trace) <= k.trace
    ensures r.Some? ==> r.value in k.disk.inodes && r.value !in old(k.disk).inodes
    ensures Quiet(old(k.script)) ==>
              && Quiet(k.script)
              && (r.None? ==> k.disk == old(k.disk))
              && (r.Some? ==> CanCreate(old(k.disk), dir, leaf)
                              && Added(old(k.disk), k.disk, dir, leaf, r.value)
                              && k.disk.inodes[r.value].node == EmptyFile())
              && (r.None? ==> k.faults > old(k.faults) || !CanCreate(old(k.disk), dir, leaf))
              && (!moded && r.Some? ==> k.faults > old(k.faults))
              && (r.None? ==> k.trace == old(k.trace))
              && (r.Some? ==> Adding(old(k.disk), k.trace, |old(k.trace)|, dir, leaf, r.value))
    ensures k.faults >= old(k.faults)
  {
    hide Lookup, History, Created, Added, Evolves, Good, CanCreate;
    moded := false;
    ghost var d0 := k.disk;
    InodesGrow(k.trace, k.trace);
    r := k.CreateAt(dir, leaf, PRIVATE_MODE);
    if r.None? { return; }
    if Quiet(old(k.script)) {
      CreatedAdds(d0, dir, leaf, PRIVATE_MODE);
      CreatedNode(d0, dir, leaf, PRIVATE_MODE);
    }
    ghost var d1 := k.disk;
    moded := k.Chmod(r.value, PRIVATE_MODE);
    if Quiet(old(k.script)) {
      assert Rewritten(d1, k.disk, r.value);
      RewrittenAdded(d0, d1, k.disk, dir, leaf, r.value);
    }
  }

  /** What both writers do first: open the root and the parent, create the file exclusively, set
      its mode, record its identity, and check that it is an empty private file. */
  method CreateFresh(k: Kernel, root: string, parts: seq<string>)
    returns (c: Creation, ghost effect: Effect)
    requires k.Valid() && parts != []
    modifies k
    ensures k.Valid() && old(k.trace) <= k.trace
    ensures c.Fresh? ==> effect == Recorded(c.target, 0) && c.target.ino in k.disk.inodes
                         && c.target.ino !in old(k.disk).inodes && c.target.handle.ino in k.disk.inodes
    ensures Quiet(old(k.script)) && c.Fresh? ==>
              c.target.ino in k.disk.inodes && k.disk.inodes[c.target.ino].node == Regular([], 1, 384)
    ensures c.Refused? ==> (c.recorded.Some? <==> effect.Recorded?)
    ensures c.Refused? && c.recorded.Some? ==> effect == Recorded(c.recorded.value, 0)
    ensures Quiet(old(k.script)) ==>
              && Quiet(k.script)
              && (effect.Nothing? ==> k.disk == old(k.disk))
              && (!effect.Nothing? ==> Placed(old(k.disk), k.disk, root, parts, effect.target)
                                       && k.disk.inodes[effect.target.ino].node == EmptyFile())
              && (!c.Fresh? ==> k.faults > old(k.faults) || !Free(old(k.disk), root, parts))
              && (effect.Stray? ==> k.faults > old(k.faults))
              && (Occupied(old(k.disk), root, parts) ==> effect.Nothing?)
              && Touching(old(k.disk), k.trace, |old(k.trace)|, root, parts)
    ensures k.faults >= old(k.faults)
  {
    hide Lookup, History, Walk, Reached, Evolves, Good, Free, Occupied, Placed, Rooted, Touched, Added, Adding;
    c, effect := Refused(None), Nothing;
    ghost var d0 := k.disk;
    var path, _ := OpenPath(k, root, parts);
    FreeMeans(d0, root, parts);
    if path.None? { return; }
    ghost var trace0 := k.trace;
    var made, moded := CreatePrivate(k, path.value.1, Leaf(parts));
    if made.None? { return; }
    var t := Target(path.value.0, path.value.1, made.value);
    effect := Stray(t);
    if Quiet(old(k.script)) { AddingIsPlacing(d0, k.disk, k.trace, |old(k.trace)|, root, parts, t); }
    if !moded { return; }
    var metadata := k.Fstat(made.value);
    if metadata.None? { return; }
    effect := Recorded(t, 0);
    if metadata.value.kind != RegularFile || metadata.value.links != 1 || metadata.value.size != 0
       || metadata.value.mode != PRIVATE_MODE {
      return Refused(Some(t)), effect;
    }
    InodesGrow(old(k.trace), trace0);
    InodesGrow(trace0, k.trace);
    return Fresh(t), effect;
  }

  lemma FreeMeans(d: Disk, root: string, parts: seq<string>)
    requires parts != []
    ensures Free(d, root, parts) ==>
              var dir := Reached(d, root, Above(parts)); dir.Some? && CanCreate(d, dir.value, Leaf(parts))
    ensures Occupied(d, root, parts) ==>
              var dir := Reached(d, root, Above(parts)); dir.Some? && !CanCreate(d, dir.value, Leaf(parts))
  {
    hide Reached;
  }

  lemma AddedIsPlaced(a: Disk, b: Disk, root: string, parts: seq<string>, t: Target)
    requires parts != [] && Rooted(a, root, t.handle) && Reached(a, root, Above(parts)) == Some(t.parent)
    requires Added(a, b, t.parent, Leaf(parts), t.ino)
    ensures Placed(a, b, root, parts, t)
  {
    hide Descend, Added;
  }

  lemma AddingIsPlacing(a: Disk, b: Disk, trace: seq<Disk>, from: nat, root: string, parts: seq<string>, t: Target)
    requires parts != [] && Rooted(a, root, t.handle) && Reached(a, root, Above(parts)) == Some(t.parent)
    requires Added(a, b, t.parent, Leaf(parts), t.ino) && Adding(a, trace, from, t.parent, Leaf(parts), t.ino)
    ensures Placed(a, b, root, parts, t) && Touching(a, trace, from, root, parts)
  {
    hide Added, Placed, Reached, Rooted;
    AddedIsPlaced(a, b, root, parts, t);
    forall j | from <= j < |trace| ensures Touched(a, trace[j], root, parts) {
      AddedIsPlaced(a, trace[j], root, parts, t);
    }
  }

  // ---------------------------------------------------------------- cleanup

  /** The path leads to the parent but the target is gone and everything else is as in `a`. */
  ghost predicate Gone(a: Disk, b: Disk, root: string, parts: seq<string>, t: Target)
    requires parts != []
  {
    && Rooted(a, root, t.handle)
    && Descend(a, t.handle.ino, Above(parts)) == Some(t.parent)
    && t.parent in a.inodes && a.inodes[t.parent].node.Folder?
    && Leaf(parts) !in a.inodes[t.parent].node.entries
    && Kept(a, b)
  }

  lemma PathStays(a: Disk, b: Disk, root: string, parts: seq<string>, t: Target)
    requires parts != [] && (Placed(a, b, root, parts, t) || Gone(a, b, root, parts, t))
    ensures RootAvailable(b, root) && b.roots[root] == t.handle.ino
    ensures Descend(b, t.handle.ino, Above(parts)) == Some(t.parent)
  {
    DescendStays(a, b, t.parent, Leaf(parts), t.ino, t.handle.ino, Above(parts));
  }

  lemma PlacedUnlinked(a: Disk, b: Disk, root: string, parts: seq<string>, t: Target)
    requires parts != [] && Placed(a, b, root, parts, t)
    ensures Lookup(b, t.parent, Leaf(parts)) == Some(t.ino) && CanUnlink(b, t.parent, Leaf(parts))
    ensures Gone(a, Unlinked(b, t.parent, Leaf(parts)), root, parts, t)
    ensures Touched(a, Unlinked(b, t.parent, Leaf(parts)), root, parts)
  {
    hide Descend, Unlinked, CanUnlink;
    UnlinkRestores(a, b, t.parent, Leaf(parts), t.ino);
  }

  lemma GoneLookup(a: Disk, b: Disk, root: string, parts: seq<string>, t: Target)
    requires parts != [] && Gone(a, b, root, parts, t)
    ensures Lookup(b, t.parent, Leaf(parts)).None?
  {
  }

  /** `_unlink_created_file`: without outside writers it either takes the target back or was
      stopped by a failing call. */
  method UnlinkCreatedFile(k: Kernel, root: string, parts: seq<string>, created: Ino,
                           ghost d0: Disk, ghost t: Target)
    requires k.Valid() && parts != [] && t.ino == created
    modifies k
    ensures k.Valid() && old(k.trace) <= k.trace
    ensures Quiet(old(k.script)) ==> Quiet(k.script)
    ensures Quiet(old(k.script)) && Placed(d0, old(k.disk), root, parts, t) ==>
              Gone(d0, k.disk, root, parts, t) || (k.disk == old(k.disk) && k.faults > old(k.faults))
    ensures Quiet(old(k.script)) && Gone(d0, old(k.disk), root, parts, t) ==>
              k.disk == old(k.disk) && k.trace == old(k.trace)
    ensures Quiet(old(k.script)) && Placed(d0, old(k.disk), root, parts, t) ==>
              Touching(d0, k.trace, |old(k.trace)|, root, parts)
    ensures k.faults >= old(k.faults)
  {
    hide Lookup, History, Walk, Descend, Placed, Gone, CanUnlink, Unlinked, Evolves, Touched;
    ghost var d := k.disk;
    ghost var placed := Placed(d0, d, root, parts, t);
    ghost var gone := Gone(d0, d, root, parts, t);
    if placed || gone { PathStays(d0, d, root, parts, t); }
    if placed { PlacedUnlinked(d0, d, root, parts, t); }
    if gone { GoneLookup(d0, d, root, parts, t); }
    var path, _ := OpenPath(k, root, parts);
    if path.None? { return; }
    var parent := path.value.1;
    var metadata := k.StatAt(parent, Leaf(parts));
    if metadata.None? || metadata.value.ino != created { return; }
    var unlinked := k.UnlinkAt(parent, Leaf(parts));
    if !unlinked { return; }
    var _ := k.Settle();
  }

  /** `_unlink_created_file_at`: the same through the held parent; false when it could not. */
  method UnlinkCreatedFileAt(k: Kernel, root: string, parts: seq<string>, t: Target, ghost d0: Disk)
    returns (done: bool)
    requires k.Valid() && parts != []
    modifies k
    ensures k.Valid() && old(k.trace) <= k.trace
    ensures Quiet(old(k.script)) ==> Quiet(k.script)
    ensures Quiet(old(k.script)) && Placed(d0, old(k.disk), root, parts, t) ==>
              && (Gone(d0, k.disk, root, parts, t) || (k.disk == old(k.disk) && k.faults > old(k.faults) && !done))
              && Touching(d0, k.trace, |old(k.trace)|, root, parts)
    ensures k.faults >= old(k.faults)
  {
    hide Lookup, History, Descend, Placed, Gone, CanUnlink, Unlinked, Evolves, Touched;
    if Placed(d0, k.disk, root, parts, t) { PlacedUnlinked(d0, k.disk, root, parts, t); }
    var probe := k.ProbeAt(t.parent, Leaf(parts));
    if probe.Missing? { return true; }
    if probe.Failed? || probe.stat.ino != t.ino { return false; }
    done := k.UnlinkAt(t.parent, Leaf(parts));
    if done { done := k.Settle(); }
  }

  // ---------------------------------------------------------------- _write_file_content

  /** The entry is the target, a private file with this content. */
  predicate InPlace(d: Disk, t: Target, leaf: string, content: Bytes) {
    && Lookup(d, t.parent, leaf) == Some(t.ino)
    && d.inodes[t.ino].node == Regular(content, 1, PRIVATE_MODE)
  }

  lemma InPlaceRewritten(a: Disk, b: Disk, t: Target, leaf: string, content: Bytes, content': Bytes)
    requires InPlace(a, t, leaf, content) && Rewritten(a, b, t.ino)
    requires t.ino in b.inodes && b.inodes[t.ino].node == Regular(content', 1, PRIVATE_MODE)
    ensures InPlace(b, t, leaf, content')
  {
  }

  /** Syncing the written file and reading it back through the held descriptor. */
  method ReadBack(k: Kernel, t: Target, leaf: string, content: Bytes, maxBytes: nat) returns (ok: bool)
    requires k.Valid() && t.ino in k.disk.inodes
    modifies k
    ensures k.Valid() && old(k.trace) <= k.trace
    ensures Calm(old(k.script), old(k.disk), old(k.trace), k.script, k.disk, k.trace)
    ensures Quiet(old(k.script)) && !ok && |content| <= maxBytes ==>
              k.faults > old(k.faults) || !InPlace(old(k.disk), t, leaf, content)
    ensures k.faults >= old(k.faults)
  {
    hide Lookup, History, Evolves, Good;
    ok := k.Settle();
    if !ok { return; }
    InodesGrow(old(k.trace), k.trace);
    var written := k.Fstat(t.ino);
    ok := k.Settle();
    if !ok || written.None? { return false; }
    InodesGrow(old(k.trace), k.trace);
    var readback := ReadDescriptor(k, t.ino, maxBytes);
    var verified := k.Fstat(t.ino);
    var entry := k.StatAt(t.parent, leaf);
    if readback.Err? || verified.None? || entry.None?
       || readback.value != content || written.value.ino != t.ino
       || written != verified || verified != entry || verified.value.links != 1
       || verified.value.size != |content| || verified.value.mode != PRIVATE_MODE
       || entry.value.kind != RegularFile {
      return false;
    }
    ok := k.Settle();
  }

  /** Writing, syncing and reading back. */
  method WriteAndReadBack(k: Kernel, t: Target, leaf: string, content: Bytes, maxBytes: nat)
    returns (ok: bool)
    requires k.Valid() && t.ino in k.disk.inodes
    modifies k
    ensures k.Valid() && old(k.trace) <= k.trace && t.ino in k.disk.inodes
    ensures Quiet(old(k.script)) ==> Quiet(k.script)
    ensures Quiet(old(k.script)) && old(k.disk).inodes[t.ino].node.Regular?
            && old(k.disk).inodes[t.ino].node.content == [] ==>
              && Rewritten(old(k.disk), k.disk, t.ino)
              && k.disk.inodes[t.ino].node.Regular?
              && k.disk.inodes[t.ino].node.links == old(k.disk).inodes[t.ino].node.links
              && k.disk.inodes[t.ino].node.mode == old(k.disk).inodes[t.ino].node.mode
              && (ok ==> k.disk.inodes[t.ino].node.content == content)
              && Rewriting(old(k.disk), k.trace, |old(k.trace)|, t.ino)
    ensures Quiet(old(k.script)) && !ok && |content| <= maxBytes ==>
              k.faults > old(k.faults) || !InPlace(old(k.disk), t, leaf, [])
    ensures k.faults >= old(k.faults)
  {
    hide History, Rewritten, Evolves, Good, Lookup, Rewriting;
    ghost var d0 := k.disk;
    ok := WriteAll(k, t.ino, 0, content);
    if !ok { return; }
    assert [] + content == content;
    if Quiet(old(k.script)) && InPlace(d0, t, leaf, []) { InPlaceRewritten(d0, k.disk, t, leaf, [], content); }
    ghost var trace0 := k.trace;
    ok := ReadBack(k, t, leaf, content, maxBytes);
    InodesGrow(trace0, k.trace);
  }

  /** `_write_file_content`. When it returns, two snapshots have shown the file at its path with
      exactly the given bytes, which it held all the time between them. Without outside writers it
      either adds exactly that file or, if it fails after recording the new file's identity, leaves
      everything as it was unless its own cleanup was made to fail. */
  method WriteFileContent(k: Kernel, root: string, parts: seq<string>, content: Bytes, maxBytes: nat)
    returns (r: Result<FileBinding>, ghost effect: Effect,
             ghost o: Observation, ghost first: Sighting, ghost second: Sighting)
    requires k.Valid() && parts != []
    modifies k
    ensures k.Valid() && old(k.trace) <= k.trace
    ensures r.Ok? ==>
              && r.value == FileBinding(parts, Sha256(content), |content|)
              && o.content == content && o.identity.mode == 384
              && Snapshot(k.trace, |old(k.trace)| - 1, root, parts, o, first)
              && Snapshot(k.trace, first.rechecked, root, parts, o, second)
              && forall t :: first.before <= t <= second.after ==> Holds(k.trace[t], o)
    ensures Quiet(old(k.script)) && effect.Nothing? ==> r.Err? && k.disk == old(k.disk)
    ensures Quiet(old(k.script)) && effect.Stray? ==>
              r.Err? && Placed(old(k.disk), k.disk, root, parts, effect.target) && k.faults > old(k.faults)
    ensures Quiet(old(k.script)) && effect.Recorded? ==>
              if r.Ok?
              then Placed(old(k.disk), k.disk, root, parts, effect.target)
                   && k.disk.inodes[effect.target.ino].node.content == content
              else Kept(old(k.disk), k.disk)
                   || (Placed(old(k.disk), k.disk, root, parts, effect.target) && k.faults > effect.faults)
    ensures effect.Recorded? && r.Err? ==> old(k.faults) <= effect.faults <= k.faults
    ensures Quiet(old(k.script)) && r.Err? && k.faults == old(k.faults) ==> Kept(old(k.disk), k.disk)
    ensures Quiet(old(k.script)) && k.faults == old(k.faults) ==>
              (r.Ok? <==> Free(old(k.disk), root, parts) && |content| <= maxBytes)
    ensures Quiet(old(k.script)) && Occupied(old(k.disk), root, parts) ==> effect.Nothing?
    ensures Quiet(old(k.script)) ==> Touching(old(k.disk), k.trace, |old(k.trace)|, root, parts)
    ensures k.faults >= old(k.faults)
  {
    hide Lookup, History, Walk, Descend, Placed, Touching, Rewriting, Evolves, Rooted, Snapshot, Rewritten, Free, Holds, PathSight;
    ghost var d0 := k.disk;
    ghost var from := |k.trace| - 1;
    InodesGrow(k.trace, k.trace);
    r, o := Err, Observation([], Stat(0, OtherFile, 0, 0, 0, 0));
    first := Sighting(RootHandle(0, 0), 0, 0, 0, 0, 0);
    second := first;
    var c;
    c, effect := CreateFresh(k, root, parts);
    if c.Refused? {
      if c.recorded.Some? {
        ghost var trace0 := k.trace;
        effect := Recorded(c.recorded.value, k.faults);
        UnlinkCreatedFile(k, root, parts, c.recorded.value.ino, d0, c.recorded.value);
        if Quiet(old(k.script)) { TouchingJoins(d0, trace0, k.trace, from + 1, root, parts); }
      }
      return;
    }
    var t := c.target;
    ghost var d1, trace1 := k.disk, k.trace;
    AddedFile(d0, d1, root, parts, t);
    if Quiet(old(k.script)) { PlacedIsFree(d0, d1, root, parts, t, 0); }
    var ok := WriteAndReadBack(k, t, Leaf(parts), content, maxBytes);
    RewrittenPlaced(d0, d1, k.disk, root, parts, t);
    ghost var trace2 := k.trace;
    if Quiet(old(k.script)) {
      PlacedRewriting(d0, d1, trace2, |trace1|, root, parts, t);
      TouchingJoins(d0, trace1, trace2, from + 1, root, parts);
    }
    if !ok {
      effect := Recorded(t, k.faults);
      UnlinkCreatedFile(k, root, parts, t.ino, d0, t);
      if Quiet(old(k.script)) { TouchingJoins(d0, trace2, k.trace, from + 1, root, parts); }
      return;
    }
    if Quiet(old(k.script)) { PlacedIsFree(d0, k.disk, root, parts, t, maxBytes); }
    var observed;
    observed, first, second := ObserveFileTwice(k, root, parts, maxBytes);
    if observed.Err? || observed.value.content != content || observed.value.identity.ino != t.ino
       || observed.value.identity.mode != PRIVATE_MODE {
      effect := Recorded(t, k.faults);
      UnlinkCreatedFile(k, root, parts, t.ino, d0, t);
      if Quiet(old(k.script)) { TouchingJoins(d0, trace2, k.trace, from + 1, root, parts); }
      return;
    }
    o := observed.value;
    SnapshotLater(k.trace, |trace2| - 1, from, root, parts, o, first);
    return Ok(FileBinding(parts, Sha256(content), |content|)), effect, o, first, second;
  }

  /** A placed file was not there before and can be read where it is. */
  lemma PlacedIsFree(a: Disk, b: Disk, root: string, parts: seq<string>, t: Target, max: nat)
    requires parts != [] && Good(a) && Placed(a, b, root, parts, t)
    ensures Free(a, root, parts) && t.ino in b.inodes && b.inodes[t.ino].node.Regular?
    ensures Lookup(b, t.parent, Leaf(parts)) == Some(t.ino)
    ensures Bounded(b.inodes[t.ino].node, max) ==>
              PathSight(b, root, parts, max) == Some(Observation(b.inodes[t.ino].node.content, StatOf(b, t.ino)))
  {
    hide Descend, CanUnlink, Unlinked;
    PathStays(a, b, root, parts, t);
    PlacedUnlinked(a, b, root, parts, t);
  }

  lemma AddedFile(a: Disk, b: Disk, root: string, parts: seq<string>, t: Target)
    requires parts != []
    ensures Placed(a, b, root, parts, t) ==>
              t.ino in b.inodes && b.inodes[t.ino].node.Regular? && b.inodes[t.ino].node.links == 1
  {
  }

  lemma RewrittenPlaced(a: Disk, b: Disk, c: Disk, root: string, parts: seq<string>, t: Target)
    requires parts != []
    ensures Placed(a, b, root, parts, t) && Rewritten(b, c, t.ino)
            && t.ino in c.inodes && c.inodes[t.ino].node.Regular? && c.inodes[t.ino].node.links == 1 ==>
              Placed(a, c, root, parts, t)
  {
    hide Descend, Rooted;
    if Placed(a, b, root, parts, t) && Rewritten(b, c, t.ino)
       && t.ino in c.inodes && c.inodes[t.ino].node.Regular? && c.inodes[t.ino].node.links == 1 {
      RewrittenAdded(a, b, c, t.parent, Leaf(parts), t.ino);
    }
  }
}
