/** Reading evidence files with short reads while the environment writes: an observation that
    succeeds is a snapshot. */
module EvidenceReading {
  import opened Text
  import opened FileSystem

  const READ_CHUNK_BYTES: nat := 1_048_576

  /** A held root directory: the inode and the mode that `_directory_identity` compares. */
  datatype RootHandle = RootHandle(ino: Ino, mode: nat)

  datatype Observation = Observation(content: Bytes, identity: Stat)

  /** The root path names the held directory. */
  predicate Rooted(d: Disk, root: string, h: RootHandle) {
    && root in d.roots && d.roots[root] == h.ino && h.ino in d.inodes
    && d.inodes[h.ino].node.Folder? && d.inodes[h.ino].node.mode == h.mode
  }

  predicate RootAvailable(d: Disk, root: string) {
    root in d.roots && d.roots[root] in d.inodes && d.inodes[d.roots[root]].node.Folder?
  }

  /** `dir/parts` leads to `target`, each component looked up at an instant of its own, in order,
      between `lo` and `hi`. */
  ghost predicate Walk(trace: seq<Disk>, lo: nat, hi: nat, dir: Ino, parts: seq<string>, target: Ino) {
    if parts == [] then dir == target
    else
      var n := |parts| - 1;
      exists t: nat, mid ::
        lo <= t <= hi && t < |trace| && Walk(trace, lo, t, dir, parts[..n], mid)
        && Lookup(trace[t], mid, parts[n]) == Some(target)
  }

  lemma {:induction false} WalkExtends(trace: seq<Disk>, trace': seq<Disk>, lo: nat, hi: nat, hi': nat,
                                       dir: Ino, parts: seq<string>, target: Ino)
    requires trace <= trace' && hi <= hi' && Walk(trace, lo, hi, dir, parts, target)
    ensures Walk(trace', lo, hi', dir, parts, target)
    decreases |parts|
  {
    if parts != [] {
      var n := |parts| - 1;
      var t: nat, mid :|
        lo <= t <= hi && t < |trace| && Walk(trace, lo, t, dir, parts[..n], mid)
        && Lookup(trace[t], mid, parts[n]) == Some(target);
      WalkExtends(trace, trace', lo, t, t, dir, parts[..n], mid);
      assert trace'[t] == trace[t];
    }
  }

  /** The same walk on one disk. */
  function Descend(d: Disk, dir: Ino, parts: seq<string>): Option<Ino> {
    if parts == [] then Some(dir)
    else
      var n := |parts| - 1;
      var mid := Descend(d, dir, parts[..n]);
      if mid.None? then None
      else
        var next := Lookup(d, mid.value, parts[n]);
        if next.Some? && d.inodes[next.value].node.Folder? then next else None
  }

  /** `_open_root`. */
  method OpenRoot(k: Kernel, root: string) returns (r: Option<RootHandle>)
    requires k.Valid()
    modifies k
    ensures k.Valid() && old(k.trace) <= k.trace
    ensures Calm(old(k.script), old(k.disk), old(k.trace), k.script, k.disk, k.trace)
    ensures r.Some? ==> Rooted(k.disk, root, r.value)
    ensures Quiet(old(k.script)) && r.None? ==> k.faults > old(k.faults) || !RootAvailable(old(k.disk), root)
    ensures k.faults >= old(k.faults)
  {
    r := None;
    var before := k.StatRoot(root);
    if before.None? || before.value.kind != DirectoryFile { return; }
    var descriptor := k.OpenRootPath(root);
    if descriptor.None? { return; }
    var held := k.Fstat(descriptor.value);
    if held.None? { return; }
    var after := k.StatRoot(root);
    if after.None? || held.value.kind != DirectoryFile || after.value.kind != DirectoryFile
       || (held.value.ino, held.value.mode) != (before.value.ino, before.value.mode)
       || (after.value.ino, after.value.mode) != (before.value.ino, before.value.mode) {
      return;
    }
    return Some(RootHandle(before.value.ino, before.value.mode));
  }

  /** `_require_same_root`. */
  method RequireSameRoot(k: Kernel, root: string, h: RootHandle) returns (ok: bool)
    requires k.Valid()
    modifies k
    ensures k.Valid() && old(k.trace) <= k.trace
    ensures Calm(old(k.script), old(k.disk), old(k.trace), k.script, k.disk, k.trace)
    ensures ok ==> Rooted(k.disk, root, h)
    ensures Quiet(old(k.script)) && !ok ==> k.faults > old(k.faults) || !Rooted(old(k.disk), root, h)
    ensures k.faults >= old(k.faults)
  {
    var again := OpenRoot(k, root);
    ok := again == Some(h);
  }

  /** `_open_parent`. */
  method OpenParent(k: Kernel, dir: Ino, parts: seq<string>) returns (r: Option<Ino>)
    requires k.Valid() && parts != [] && dir in k.disk.inodes
    modifies k
    ensures k.Valid() && old(k.trace) <= k.trace
    ensures Calm(old(k.script), old(k.disk), old(k.trace), k.script, k.disk, k.trace)
    ensures r.Some? ==>
              && r.value in k.disk.inodes
              && Walk(k.trace, |old(k.trace)| - 1, |k.trace| - 1, dir, parts[..|parts| - 1], r.value)
    ensures Quiet(old(k.script)) && r.Some? ==> Descend(old(k.disk), dir, parts[..|parts| - 1]) == r
    ensures Quiet(old(k.script)) && r.None? ==>
              k.faults > old(k.faults) || Descend(old(k.disk), dir, parts[..|parts| - 1]).None?
    ensures k.faults >= old(k.faults)
  {
    hide Walk, Descend, Lookup, History;
    ghost var lo := |k.trace| - 1;
    ghost var above := parts[..|parts| - 1];
    var descriptor := dir;
    NoSteps(k.trace, k.disk, dir, parts);
    var i := 0;
    while i < |parts| - 1
      invariant i <= |parts| - 1
      invariant k.Valid() && old(k.trace) <= k.trace && k.faults >= old(k.faults)
      invariant Calm(old(k.script), old(k.disk), old(k.trace), k.script, k.disk, k.trace)
      invariant descriptor in k.disk.inodes
      invariant Walk(k.trace, lo, |k.trace| - 1, dir, parts[..i], descriptor)
      invariant Quiet(old(k.script)) ==> Descend(old(k.disk), dir, parts[..i]) == Some(descriptor)
    {
      ghost var trace0, faults0 := k.trace, k.faults;
      var child := k.OpenDirectoryAt(descriptor, parts[i]);
      DescendStep(old(k.disk), dir, parts, i);
      if child.None? {
        if Quiet(old(k.script)) && k.faults == faults0 { DescendStops(k.disk, dir, above, i + 1); }
        return None;
      }
      ghost var trace1 := k.trace;
      WalkStep(trace0, trace1, lo, dir, parts, i, descriptor, child.value);
      var metadata := k.Fstat(child.value);
      if metadata.None? || metadata.value.kind != DirectoryFile { return None; }
      WalkExtends(trace1, k.trace, lo, |trace1| - 1, |k.trace| - 1, dir, parts[..i + 1], child.value);
      descriptor := child.value;
      i := i + 1;
    }
    return Some(descriptor);
  }

  /** The directory that a path below a root leads to. */
  function Reached(d: Disk, root: string, parts: seq<string>): Option<Ino> {
    if RootAvailable(d, root) then Descend(d, d.roots[root], parts) else None
  }

  /** `_open_root`, then `_open_parent` from it. */
  method OpenPath(k: Kernel, root: string, parts: seq<string>)
    returns (r: Option<(RootHandle, Ino)>, ghost reached: nat)
    requires k.Valid() && parts != []
    modifies k
    ensures k.Valid() && old(k.trace) <= k.trace
    ensures Calm(old(k.script), old(k.disk), old(k.trace), k.script, k.disk, k.trace)
    ensures r.Some? ==>
              && |old(k.trace)| - 1 <= reached < |k.trace| && Rooted(k.trace[reached], root, r.value.0)
              && Walk(k.trace, reached, |k.trace| - 1, r.value.0.ino, parts[..|parts| - 1], r.value.1)
              && r.value.0.ino in k.disk.inodes && r.value.1 in k.disk.inodes
    ensures Quiet(old(k.script)) && r.Some? ==>
              Rooted(old(k.disk), root, r.value.0) && Reached(old(k.disk), root, parts[..|parts| - 1]) == Some(r.value.1)
    ensures Quiet(old(k.script)) && r.None? ==>
              k.faults > old(k.faults) || Reached(old(k.disk), root, parts[..|parts| - 1]).None?
    ensures k.faults >= old(k.faults)
  {
    hide Lookup, History, Walk, Rooted, RootAvailable, Descend, Evolves, Good;
    reached := 0;
    var handle := OpenRoot(k, root);
    if handle.None? { return None, 0; }
    ghost var trace0 := k.trace;
    RootedExists(k.disk, root, handle.value);
    var parent := OpenParent(k, handle.value.ino, parts);
    if parent.None? { return None, 0; }
    InodesGrow(trace0, k.trace);
    assert k.trace[|trace0| - 1] == trace0[|trace0| - 1];
    return Some((handle.value, parent.value)), |trace0| - 1;
  }

  lemma RootedExists(d: Disk, root: string, h: RootHandle)
    requires Rooted(d, root, h)
    ensures h.ino in d.inodes && RootAvailable(d, root) && d.roots[root] == h.ino
  {
  }

  lemma NoSteps(trace: seq<Disk>, d: Disk, dir: Ino, parts: seq<string>)
    requires trace != []
    ensures Walk(trace, |trace| - 1, |trace| - 1, dir, parts[..0], dir)
    ensures Descend(d, dir, parts[..0]) == Some(dir)
  {
  }

  lemma WalkStep(trace: seq<Disk>, trace': seq<Disk>, lo: nat, dir: Ino, parts: seq<string>, i: nat,
                 mid: Ino, child: Ino)
    requires trace != [] && trace <= trace' && lo < |trace| && i < |parts|
    requires Walk(trace, lo, |trace| - 1, dir, parts[..i], mid)
    requires Lookup(trace'[|trace'| - 1], mid, parts[i]) == Some(child)
    ensures Walk(trace', lo, |trace'| - 1, dir, parts[..i + 1], child)
  {
    WalkExtends(trace, trace', lo, |trace| - 1, |trace'| - 1, dir, parts[..i], mid);
    assert parts[..i + 1][..i] == parts[..i] && parts[..i + 1][i] == parts[i];
  }

  lemma DescendStep(d: Disk, dir: Ino, parts: seq<string>, i: nat)
    requires i < |parts|
    ensures parts[..i + 1] == parts[..|parts|][..i + 1]
    ensures i + 1 < |parts| ==> parts[..|parts| - 1][..i + 1] == parts[..i + 1]
    ensures Descend(d, dir, parts[..i + 1]) ==
            var mid := Descend(d, dir, parts[..i]);
            if mid.None? then None
            else
              var next := Lookup(d, mid.value, parts[i]);
              if next.Some? && d.inodes[next.value].node.Folder? then next else None
  {
    assert parts[..i + 1][..i] == parts[..i] && parts[..i + 1][i] == parts[i];
  }

  /** A walk that fails on a prefix fails. */
  lemma {:induction false} DescendStops(d: Disk, dir: Ino, parts: seq<string>, i: nat)
    requires i <= |parts| && Descend(d, dir, parts[..i]).None?
    ensures Descend(d, dir, parts).None?
    decreases |parts|
  {
    if i == |parts| {
      assert parts[..i] == parts;
    } else {
      var n := |parts| - 1;
      assert parts[..n][..i] == parts[..i];
      DescendStops(d, dir, parts[..n], i);
    }
  }

  /** A regular file of at most `max` bytes. */
  predicate Bounded(node: Node, max: nat) {
    node.Regular? && |node.content| <= max
  }

  /** `_read_descriptor`: if the inode is at the end as it was at the start, the bytes read in all
      the chunks together are its content. */
  method ReadDescriptor(k: Kernel, i: Ino, maxBytes: nat) returns (r: Result<Bytes>)
    requires k.Valid() && i in k.disk.inodes
    modifies k
    ensures k.Valid() && old(k.trace) <= k.trace && i in k.disk.inodes
    ensures Calm(old(k.script), old(k.disk), old(k.trace), k.script, k.disk, k.trace)
    ensures r.Ok? ==> |r.value| <= maxBytes
    ensures r.Ok? && k.disk.inodes[i] == old(k.disk).inodes[i] ==>
              k.disk.inodes[i].node.Regular? && r.value == k.disk.inodes[i].node.content
    ensures Quiet(old(k.script)) && r.Err? ==>
              k.faults > old(k.faults) || !Bounded(old(k.disk).inodes[i].node, maxBytes)
    ensures k.faults >= old(k.faults)
  {
    ghost var lo := |k.trace| - 1;
    ghost var start := k.disk.inodes[i];
    var content: Bytes := [];
    while |content| <= maxBytes
      invariant k.Valid() && old(k.trace) <= k.trace && i in k.disk.inodes && k.faults >= old(k.faults)
      invariant Calm(old(k.script), old(k.disk), old(k.trace), k.script, k.disk, k.trace)
      invariant k.disk.inodes[i] == start && start.node.Regular? ==> content <= start.node.content
    {
      ghost var mid := |k.trace| - 1;
      var chunk := k.Read(i, |content|, Least(READ_CHUNK_BYTES, maxBytes + 1 - |content|));
      if chunk.None? { return Err; }
      if k.disk.inodes[i] == start { Unchanged(k.trace, lo, mid, i); }
      if chunk.value == [] { break; }
      content := content + chunk.value;
    }
    if |content| > maxBytes { return Err; }
    return Ok(content);
  }

  lemma Unchanged(trace: seq<Disk>, lo: nat, mid: nat, i: Ino)
    requires History(trace) && lo <= mid < |trace|
    requires i in trace[lo].inodes && i in trace[|trace| - 1].inodes
    requires trace[|trace| - 1].inodes[i] == trace[lo].inodes[i]
    ensures i in trace[mid].inodes && trace[mid].inodes[i] == trace[lo].inodes[i]
  {
    SameIdentityPins(trace, lo, mid, |trace| - 1, i);
  }

  // ---------------------------------------------------------------- snapshots

  /** The file of the observation, unshared, with exactly the observed bytes and identity. */
  predicate Holds(d: Disk, o: Observation) {
    var i := o.identity.ino;
    && i in d.inodes && StatOf(d, i) == o.identity
    && d.inodes[i].node.Regular? && d.inodes[i].node.links == 1
    && d.inodes[i].node.content == o.content
  }

  /** The name leads to the observed file at both ends of an interval throughout which the file
      held exactly the observed bytes. */
  ghost predicate HeldBetween(trace: seq<Disk>, before: nat, after: nat, dir: Ino, leaf: string, o: Observation) {
    && before <= after < |trace|
    && Lookup(trace[before], dir, leaf) == Some(o.identity.ino)
    && Lookup(trace[after], dir, leaf) == Some(o.identity.ino)
    && forall t :: before <= t <= after ==> Holds(trace[t], o)
  }

  /** Equal identities before and after make the read and every state between them agree. */
  lemma ReadIsSnapshot(trace: seq<Disk>, before: nat, lo: nat, hi: nat, after: nat, dir: Ino,
                       leaf: string, s: Stat, content: Bytes)
    requires History(trace) && before <= lo <= hi <= after < |trace|
    requires Lookup(trace[before], dir, leaf) == Some(s.ino) && Lookup(trace[after], dir, leaf) == Some(s.ino)
    requires s.ino in trace[before].inodes && s.ino in trace[after].inodes
    requires StatOf(trace[before], s.ino) == s == StatOf(trace[after], s.ino) && s.links == 1
    requires s.ino in trace[lo].inodes && s.ino in trace[hi].inodes
    requires trace[hi].inodes[s.ino] == trace[lo].inodes[s.ino] ==>
               trace[hi].inodes[s.ino].node.Regular? && content == trace[hi].inodes[s.ino].node.content
    ensures HeldBetween(trace, before, after, dir, leaf, Observation(content, s))
  {
    SameIdentityPins(trace, before, lo, after, s.ino);
    SameIdentityPins(trace, before, hi, after, s.ino);
    forall t | before <= t <= after ensures Holds(trace[t], Observation(content, s)) {
      SameIdentityPins(trace, before, t, after, s.ino);
    }
  }

  lemma InodesGrow(trace: seq<Disk>, trace': seq<Disk>)
    requires trace != [] && trace <= trace' && History(trace')
    ensures trace[|trace| - 1].inodes.Keys <= trace'[|trace'| - 1].inodes.Keys
    ensures Good(trace'[|trace'| - 1])
  {
    assert trace'[|trace| - 1] == trace[|trace| - 1];
    assert Evolves(trace'[|trace| - 1], trace'[|trace'| - 1]);
  }

  /** The directory has an entry for an unshared file of at most `max` bytes. */
  predicate Readable(d: Disk, dir: Ino, leaf: string, max: nat) {
    var i := Lookup(d, dir, leaf);
    i.Some? && Bounded(d.inodes[i.value].node, max) && d.inodes[i.value].node.links == 1
  }

  /** The one observation to be made of such an entry. */
  function Sight(d: Disk, dir: Ino, leaf: string, max: nat): Option<Observation> {
    if Readable(d, dir, leaf, max)
    then
      var i := Lookup(d, dir, leaf).value;
      Some(Observation(d.inodes[i].node.content, StatOf(d, i)))
    else None
  }

  /** The same at the end of a path. */
  function PathSight(d: Disk, root: string, parts: seq<string>, max: nat): Option<Observation>
    requires parts != []
  {
    var dir := Reached(d, root, parts[..|parts| - 1]);
    if dir.None? then None else Sight(d, dir.value, parts[|parts| - 1], max)
  }

  lemma StatTells(d: Disk, i: Ino, max: nat)
    requires i in d.inodes
    ensures StatOf(d, i).ino == i
    ensures Bounded(d.inodes[i].node, max) && d.inodes[i].node.links == 1 <==>
            StatOf(d, i).kind == RegularFile && StatOf(d, i).links == 1 && StatOf(d, i).size <= max
    ensures d.inodes[i].node.Special? ==> StatOf(d, i).kind == OtherFile
    ensures d.inodes[i].node.Regular? ==> StatOf(d, i).size == |d.inodes[i].node.content|
  {
  }

  lemma HeldIsSeen(trace: seq<Disk>, before: nat, after: nat, dir: Ino, leaf: string, o: Observation, max: nat)
    requires HeldBetween(trace, before, after, dir, leaf, o) && |o.content| <= max
    ensures Sight(trace[after], dir, leaf, max) == Some(o)
  {
  }

  /** The first sight of an entry and its opening: an unshared file within the bound, seen alike
      by name and through the descriptor. */
  method OpenHeld(k: Kernel, dir: Ino, leaf: string, maxBytes: nat) returns (r: Option<Stat>, ghost before: nat)
    requires k.Valid()
    modifies k
    ensures k.Valid() && old(k.trace) <= k.trace
    ensures Calm(old(k.script), old(k.disk), old(k.trace), k.script, k.disk, k.trace)
    ensures r.Some? ==>
              && |old(k.trace)| - 1 <= before < |k.trace|
              && Lookup(k.trace[before], dir, leaf) == Some(r.value.ino)
              && StatOf(k.trace[before], r.value.ino) == r.value && r.value.links == 1 && r.value.size <= maxBytes
              && r.value.ino in k.disk.inodes && StatOf(k.disk, r.value.ino) == r.value
              && r.value.kind == RegularFile
    ensures Quiet(old(k.script)) && r.Some? ==> Lookup(old(k.disk), dir, leaf) == Some(r.value.ino)
    ensures Quiet(old(k.script)) && r.None? ==>
              k.faults > old(k.faults) || !Readable(old(k.disk), dir, leaf, maxBytes)
    ensures k.faults >= old(k.faults)
  {
    hide Lookup, History, Evolves, Good, StatOf, Bounded;
    r, before := None, 0;
    if Readable(k.disk, dir, leaf, maxBytes) { StatTells(k.disk, Lookup(k.disk, dir, leaf).value, maxBytes); }
    var first := k.StatAt(dir, leaf);
    if first.None? || first.value.kind != RegularFile || first.value.links != 1
       || first.value.size > maxBytes {
      return;
    }
    before := |k.trace| - 1;
    ghost var trace0 := k.trace;
    var fd := k.OpenAt(dir, leaf);
    if fd.None? { return; }
    var held := k.Fstat(fd.value);
    if held != first { return; }
    StatTells(k.disk, fd.value, maxBytes);
    assert k.trace[before] == trace0[before];
    return first, before;
  }

  /** `_read_file_once` below a held parent directory. */
  method ReadHeld(k: Kernel, dir: Ino, leaf: string, maxBytes: nat)
    returns (r: Result<Observation>, ghost before: nat, ghost after: nat)
    requires k.Valid()
    modifies k
    ensures k.Valid() && old(k.trace) <= k.trace
    ensures Calm(old(k.script), old(k.disk), old(k.trace), k.script, k.disk, k.trace)
    ensures r.Ok? ==> |r.value.content| <= maxBytes
                      && |old(k.trace)| - 1 <= before && after == |k.trace| - 1
                      && HeldBetween(k.trace, before, after, dir, leaf, r.value)
    ensures Quiet(old(k.script)) && r.Ok? ==> Sight(old(k.disk), dir, leaf, maxBytes) == Some(r.value)
    ensures Quiet(old(k.script)) && r.Err? ==>
              k.faults > old(k.faults) || Sight(old(k.disk), dir, leaf, maxBytes).None?
    ensures k.faults >= old(k.faults)
  {
    hide Lookup, History, Evolves, Good, StatOf, HeldBetween, Bounded;
    r, before, after := Err, 0, 0;
    var first;
    first, before := OpenHeld(k, dir, leaf, maxBytes);
    if first.None? { return; }
    ghost var t1 := k.trace;
    StatTells(k.disk, first.value.ino, maxBytes);
    var content := ReadDescriptor(k, first.value.ino, maxBytes);
    ghost var t2 := k.trace;
    if content.Err? { return; }
    var finished := k.Fstat(first.value.ino);
    var last := k.StatAt(dir, leaf);
    if last != first || finished != first || |content.value| != first.value.size { return; }
    after := |k.trace| - 1;
    assert k.trace[before] == t1[before] && k.trace[|t1| - 1] == t1[|t1| - 1]
        && k.trace[|t2| - 1] == t2[|t2| - 1];
    ReadIsSnapshot(k.trace, before, |t1| - 1, |t2| - 1, after, dir, leaf, first.value, content.value);
    HeldIsSeen(k.trace, before, after, dir, leaf, Observation(content.value, first.value), maxBytes);
    return Ok(Observation(content.value, first.value)), before, after;
  }

  /** Where and when an observation was made. */
  datatype Sighting = Sighting(handle: RootHandle, dir: Ino, rooted: nat, before: nat, after: nat, rechecked: nat)

  /** What a successful observation means: the root path named one directory at the start and at
      the end, the walk from it led to a directory whose entry was the file, and the file held
      exactly the observed bytes at every instant from `before` to `after`. */
  ghost predicate Snapshot(trace: seq<Disk>, from: nat, root: string, parts: seq<string>,
                           o: Observation, w: Sighting)
    requires parts != []
  {
    var n := |parts| - 1;
    && from <= w.rooted <= w.before <= w.after <= w.rechecked < |trace|
    && Rooted(trace[w.rooted], root, w.handle) && Rooted(trace[w.rechecked], root, w.handle)
    && Walk(trace, w.rooted, w.before, w.handle.ino, parts[..n], w.dir)
    && HeldBetween(trace, w.before, w.after, w.dir, parts[n], o)
  }

  lemma HeldExtends(trace: seq<Disk>, trace': seq<Disk>, before: nat, after: nat, dir: Ino,
                    leaf: string, o: Observation)
    requires trace <= trace' && HeldBetween(trace, before, after, dir, leaf, o)
    ensures HeldBetween(trace', before, after, dir, leaf, o)
  {
    hide Lookup, Holds;
    assert forall t :: 0 <= t < |trace| ==> trace'[t] == trace[t];
  }

  /** `_read_file_once`. */
  method ReadFileOnce(k: Kernel, root: string, parts: seq<string>, maxBytes: nat)
    returns (r: Result<Observation>, ghost w: Sighting)
    requires k.Valid() && parts != []
    modifies k
    ensures k.Valid() && old(k.trace) <= k.trace
    ensures Calm(old(k.script), old(k.disk), old(k.trace), k.script, k.disk, k.trace)
    ensures r.Ok? ==> |r.value.content| <= maxBytes
                      && Snapshot(k.trace, |old(k.trace)| - 1, root, parts, r.value, w)
    ensures Quiet(old(k.script)) && r.Ok? ==> PathSight(old(k.disk), root, parts, maxBytes) == Some(r.value)
    ensures Quiet(old(k.script)) && r.Err? ==>
              k.faults > old(k.faults) || PathSight(old(k.disk), root, parts, maxBytes).None?
    ensures k.faults >= old(k.faults)
  {
    hide Lookup, History, Walk, HeldBetween, Rooted, Reached, Sight;
    var n := |parts| - 1;
    w := Sighting(RootHandle(0, 0), 0, 0, 0, 0, 0);
    r := Err;
    var path;
    ghost var rooted: nat;
    path, rooted := OpenPath(k, root, parts);
    if path.None? { return; }
    var handle, parent := path.value.0, path.value.1;
    ghost var trace1 := k.trace;
    ghost var before: nat, after: nat;
    r, before, after := ReadHeld(k, parent, parts[n], maxBytes);
    if r.Err? { return; }
    ghost var trace2 := k.trace;
    var same := RequireSameRoot(k, root, handle);
    if !same { return Err, w; }
    w := Sighting(handle, parent, rooted, before, after, |k.trace| - 1);
    WalkExtends(trace1, k.trace, rooted, |trace1| - 1, before, handle.ino, parts[..n], parent);
    HeldExtends(trace2, k.trace, before, after, parent, parts[n], r.value);
    HeldOrder(trace2, before, after, parent, parts[n], r.value);
    assert k.trace[rooted] == trace1[rooted];
  }

  lemma HeldOrder(trace: seq<Disk>, before: nat, after: nat, dir: Ino, leaf: string, o: Observation)
    requires HeldBetween(trace, before, after, dir, leaf, o)
    ensures before <= after < |trace|
  {
  }

  /** `_observe_file_twice`: two snapshots of the same file, and the file held the bytes at every
      instant from the first sight of it to the last. */
  method ObserveFileTwice(k: Kernel, root: string, parts: seq<string>, maxBytes: nat)
    returns (r: Result<Observation>, ghost first: Sighting, ghost second: Sighting)
    requires k.Valid() && parts != []
    modifies k
    ensures k.Valid() && old(k.trace) <= k.trace
    ensures Calm(old(k.script), old(k.disk), old(k.trace), k.script, k.disk, k.trace)
    ensures r.Ok? ==>
              && |r.value.content| <= maxBytes
              && Snapshot(k.trace, |old(k.trace)| - 1, root, parts, r.value, first)
              && Snapshot(k.trace, first.rechecked, root, parts, r.value, second)
              && (forall t :: first.before <= t <= second.after ==> Holds(k.trace[t], r.value))
    ensures Quiet(old(k.script)) && r.Ok? ==> PathSight(old(k.disk), root, parts, maxBytes) == Some(r.value)
    ensures Quiet(old(k.script)) && r.Err? ==>
              k.faults > old(k.faults) || PathSight(old(k.disk), root, parts, maxBytes).None?
    ensures k.faults >= old(k.faults)
  {
    hide Lookup, Walk, Rooted, PathSight, Evolves, Good, StatOf;
    var a, b;
    a, first := ReadFileOnce(k, root, parts, maxBytes);
    if a.Err? { return Err, first, first; }
    ghost var trace0 := k.trace;
    b, second := ReadFileOnce(k, root, parts, maxBytes);
    if b.Err? || a != b { return Err, first, second; }
    SnapshotExtends(trace0, k.trace, |old(k.trace)| - 1, root, parts, a.value, first);
    BothHold(k.trace, first.before, second.after, b.value);
    SnapshotLater(k.trace, |trace0| - 1, first.rechecked, root, parts, b.value, second);
    return b, first, second;
  }

  lemma SnapshotExtends(trace: seq<Disk>, trace': seq<Disk>, from: nat, root: string,
                        parts: seq<string>, o: Observation, w: Sighting)
    requires parts != [] && trace <= trace' && Snapshot(trace, from, root, parts, o, w)
    ensures Snapshot(trace', from, root, parts, o, w)
  {
    hide Walk, HeldBetween, Rooted;
    var n := |parts| - 1;
    WalkExtends(trace, trace', w.rooted, w.before, w.before, w.handle.ino, parts[..n], w.dir);
    HeldExtends(trace, trace', w.before, w.after, w.dir, parts[n], o);
    assert trace'[w.rooted] == trace[w.rooted] && trace'[w.rechecked] == trace[w.rechecked];
  }

  lemma SnapshotLater(trace: seq<Disk>, from: nat, from': nat, root: string, parts: seq<string>,
                      o: Observation, w: Sighting)
    requires parts != [] && from' <= from && Snapshot(trace, from, root, parts, o, w)
    ensures Snapshot(trace, from', root, parts, o, w)
  {
    hide Walk, HeldBetween, Rooted;
  }

  lemma BothHold(trace: seq<Disk>, lo: nat, hi: nat, o: Observation)
    requires History(trace) && lo <= hi < |trace|
    requires Holds(trace[lo], o) && Holds(trace[hi], o)
    ensures forall t :: lo <= t <= hi ==> Holds(trace[t], o)
  {
    forall t | lo <= t <= hi ensures Holds(trace[t], o) {
      SameIdentityPins(trace, lo, t, hi, o.identity.ino);
    }
  }
}
