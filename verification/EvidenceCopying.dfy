/** Streaming a manifest-bound file into a fresh one while the environment may write to both. */
module EvidenceCopying {
  import opened Text
  import opened FileSystem
  import opened EvidenceReading
  import opened EvidenceWriting

  const MAX_STREAMED_EVIDENCE_BYTES: nat := 0x1_0000_0000

  /** `digest.update(chunk)`. */
  function Updated(digest: Digest, chunk: Bytes): Digest {
    Sha256(digest.preimage + chunk)
  }

  /** `_hash_descriptor`: like reading, but only the digest and the size are kept. */
  method HashDescriptor(k: Kernel, i: Ino, maxBytes: nat) returns (r: Result<(Digest, nat)>)
    requires k.Valid() && i in k.disk.inodes
    modifies k
    ensures k.Valid() && old(k.trace) <= k.trace && i in k.disk.inodes
    ensures Calm(old(k.script), old(k.disk), old(k.trace), k.script, k.disk, k.trace)
    ensures r.Ok? && k.disk.inodes[i] == old(k.disk).inodes[i] ==>
              && k.disk.inodes[i].node.Regular?
              && r.value == (Sha256(k.disk.inodes[i].node.content), |k.disk.inodes[i].node.content|)
    ensures Quiet(old(k.script)) && r.Err? ==>
              k.faults > old(k.faults) || !Bounded(old(k.disk).inodes[i].node, maxBytes)
    ensures k.faults >= old(k.faults)
  {
    ghost var lo := |k.trace| - 1;
    ghost var start := k.disk.inodes[i];
    var digest := Sha256([]);
    var size := 0;
    while size <= maxBytes
      invariant k.Valid() && old(k.trace) <= k.trace && i in k.disk.inodes && k.faults >= old(k.faults)
      invariant Calm(old(k.script), old(k.disk), old(k.trace), k.script, k.disk, k.trace)
      invariant |digest.preimage| == size <= maxBytes
      invariant k.disk.inodes[i] == start && start.node.Regular? ==> digest.preimage <= start.node.content
    {
      ghost var mid := |k.trace| - 1;
      var chunk := k.Read(i, size, Least(READ_CHUNK_BYTES, maxBytes + 1 - size));
      if chunk.None? { return Err; }
      if k.disk.inodes[i] == start { Unchanged(k.trace, lo, mid, i); }
      if chunk.value == [] {
        if k.disk.inodes[i] == start { assert digest == Sha256(start.node.content); }
        break;
      }
      size := size + |chunk.value|;
      if size > maxBytes { return Err; }
      digest := Updated(digest, chunk.value);
    }
    return Ok((digest, size));
  }

  lemma RewrittenTwice(a: Disk, b: Disk, c: Disk, i: Ino)
    requires Rewritten(a, b, i) && Rewritten(b, c, i)
    ensures Rewritten(a, c, i)
  {
  }

  lemma RewrittenOther(a: Disk, b: Disk, i: Ino, j: Ino)
    requires Rewritten(a, b, i) && j in a.inodes && j != i
    ensures j in b.inodes && b.inodes[j] == a.inodes[j]
  {
  }

  lemma LeastBounds()
    ensures forall n: nat :: n > 0 ==> Least(READ_CHUNK_BYTES, n) > 0
  {
  }

  lemma NotYet(a: Disk, trace: seq<Disk>, i: Ino)
    ensures Rewriting(a, trace, |trace|, i)
  {
  }

  lemma NotRewritten(a: Disk, i: Ino)
    ensures Rewritten(a, a, i)
  {
  }

  /** The copy loop: each chunk read from the source is hashed and written out completely. */
  method StreamChunks(k: Kernel, source: Ino, destination: Ino) returns (r: Result<(Digest, nat)>)
    requires k.Valid() && source in k.disk.inodes && destination in k.disk.inodes
    requires source != destination
    modifies k
    ensures k.Valid() && old(k.trace) <= k.trace
    ensures source in k.disk.inodes && destination in k.disk.inodes
    ensures r.Ok? && k.disk.inodes[source] == old(k.disk).inodes[source] ==>
              && k.disk.inodes[source].node.Regular?
              && r.value == (Sha256(k.disk.inodes[source].node.content), |k.disk.inodes[source].node.content|)
    ensures Quiet(old(k.script)) ==> Quiet(k.script)
    ensures Quiet(old(k.script)) && old(k.disk).inodes[destination].node.Regular?
            && old(k.disk).inodes[destination].node.content == [] ==>
              && Rewritten(old(k.disk), k.disk, destination)
              && k.disk.inodes[destination].node.Regular?
              && k.disk.inodes[destination].node.links == old(k.disk).inodes[destination].node.links
              && k.disk.inodes[destination].node.mode == old(k.disk).inodes[destination].node.mode
              && (r.Ok? ==> Sha256(k.disk.inodes[destination].node.content) == r.value.0)
              && (r.Err? ==> k.faults > old(k.faults)
                             || !Bounded(old(k.disk).inodes[source].node, MAX_STREAMED_EVIDENCE_BYTES))
              && Rewriting(old(k.disk), k.trace, |old(k.trace)|, destination)
    ensures k.faults >= old(k.faults)
  {
    hide History, Evolves, Good, Spliced, Rewritten, Least, Quiet, Rewriting;
    ghost var lo := |k.trace| - 1;
    ghost var start := k.disk;
    ghost var fresh0 := start.inodes[destination].node.Regular? && start.inodes[destination].node.content == [];
    var digest := Sha256([]);
    var size := 0;
    NotRewritten(start, destination);
    NotYet(start, k.trace, destination);
    LeastBounds();
    while true
      invariant k.Valid() && old(k.trace) <= k.trace && k.faults >= old(k.faults)
      invariant source in k.disk.inodes && destination in k.disk.inodes
      invariant |digest.preimage| == size <= MAX_STREAMED_EVIDENCE_BYTES
      invariant k.disk.inodes[source] == start.inodes[source] && start.inodes[source].node.Regular? ==>
          digest.preimage <= start.inodes[source].node.content
      invariant Quiet(old(k.script)) ==> Quiet(k.script)
      invariant Quiet(old(k.script)) && fresh0 ==>
          && Rewritten(start, k.disk, destination)
          && k.disk.inodes[destination].node.Regular?
          && k.disk.inodes[destination].node.content == digest.preimage
          && k.disk.inodes[destination].node.links == start.inodes[destination].node.links
          && k.disk.inodes[destination].node.mode == start.inodes[destination].node.mode
          && k.disk.inodes[source] == start.inodes[source]
          && Rewriting(start, k.trace, |old(k.trace)|, destination)
      decreases MAX_STREAMED_EVIDENCE_BYTES - size
    {
      ghost var mid := |k.trace| - 1;
      ghost var trace0 := k.trace;
      var remaining := MAX_STREAMED_EVIDENCE_BYTES - size;
      var chunk := k.Read(source, size, Least(READ_CHUNK_BYTES, remaining + 1));
      InodesGrow(trace0, k.trace);
      if chunk.None? { return Err; }
      if k.disk.inodes[source] == start.inodes[source] { Unchanged(k.trace, lo, mid, source); }
      if chunk.value == [] {
        if k.disk.inodes[source] == start.inodes[source] {
          assert digest == Sha256(start.inodes[source].node.content);
        }
        break;
      }
      var size' := size + |chunk.value|;
      if size' > MAX_STREAMED_EVIDENCE_BYTES { return Err; }
      ghost var trace1 := k.trace;
      ghost var read, d := |k.trace| - 1, k.disk;
      var written := WriteAll(k, destination, size, chunk.value);
      InodesGrow(trace1, k.trace);
      if k.disk.inodes[source] == start.inodes[source] { Unchanged(k.trace, lo, read, source); }
      if Quiet(old(k.script)) && fresh0 {
        RewrittenTwice(start, d, k.disk, destination);
        RewrittenOther(start, k.disk, destination, source);
        RewritingJoins(start, d, trace1, k.trace, |old(k.trace)|, destination);
      }
      digest := Updated(digest, chunk.value);
      size := size';
      if !written { return Err; }
    }
    return Ok((digest, size));
  }

  // ---------------------------------------------------------------- the phases of a copy

  datatype Source = Source(handle: RootHandle, parent: Ino, identity: Stat)

  /** The file with this identity is unshared and has this digest and size. */
  predicate HasContent(d: Disk, identity: Stat, sha256: Digest, size: nat) {
    var i := identity.ino;
    && i in d.inodes && StatOf(d, i) == identity
    && d.inodes[i].node.Regular? && d.inodes[i].node.links == 1
    && Sha256(d.inodes[i].node.content) == sha256 && |d.inodes[i].node.content| == size
  }

  /** The directory entry is the file with this identity. */
  predicate Named(d: Disk, dir: Ino, leaf: string, identity: Stat) {
    Lookup(d, dir, leaf) == Some(identity.ino) && StatOf(d, identity.ino) == identity
  }

  /** The path below the held root leads to an unshared file with this identity. */
  predicate Located(d: Disk, handle: RootHandle, parts: seq<string>, identity: Stat)
    requires parts != []
  {
    var dir := Descend(d, handle.ino, Above(parts));
    dir.Some? && Named(d, dir.value, Leaf(parts), identity) && identity.kind == RegularFile && identity.links == 1
  }

  /** Everything a copy checks about one of its two files. */
  predicate Ready(d: Disk, root: string, parts: seq<string>, file: Source, sha256: Digest, size: nat)
    requires parts != []
  {
    && Rooted(d, root, file.handle) && Located(d, file.handle, parts, file.identity)
    && Named(d, file.parent, Leaf(parts), file.identity) && HasContent(d, file.identity, sha256, size)
  }

  /** The path leads to an unshared file as bound, within the limit for streaming. */
  predicate AsBound(d: Disk, root: string, parts: seq<string>, expected: FileBinding)
    requires parts != []
  {
    && expected.path == parts && expected.size <= 4_294_967_296
    && var o := PathSight(d, root, parts, expected.size);
       && o.Some? && Sha256(o.value.content) == expected.sha256 && |o.value.content| == expected.size
  }

  lemma NamedRewritten(a: Disk, b: Disk, i: Ino, dir: Ino, leaf: string, s: Stat)
    requires i != s.ino && i in a.inodes
    ensures Rewritten(a, b, i) && a.inodes[i].node.Regular? && Named(a, dir, leaf, s) ==> Named(b, dir, leaf, s)
    ensures Rewritten(a, b, i) && s.ino in a.inodes ==> s.ino in b.inodes && b.inodes[s.ino] == a.inodes[s.ino]
  {
  }

  /** Adding another file leaves a ready one ready. */
  lemma ReadyStays(a: Disk, b: Disk, root: string, parts: seq<string>, file: Source, sha256: Digest, size: nat,
                   root': string, parts': seq<string>, t: Target)
    requires parts != [] && parts' != [] && Ready(a, root, parts, file, sha256, size)
    requires Placed(a, b, root', parts', t)
    ensures Ready(b, root, parts, file, sha256, size)
  {
    hide Descend, Lookup;
    DescendStays(a, b, t.parent, Leaf(parts'), t.ino, file.handle.ino, Above(parts));
    var dir := Descend(a, file.handle.ino, Above(parts)).value;
    LookupStays(a, b, t.parent, Leaf(parts'), t.ino, dir, Leaf(parts));
    LookupStays(a, b, t.parent, Leaf(parts'), t.ino, file.parent, Leaf(parts));
  }

  lemma PlacedReady(a: Disk, b: Disk, root: string, parts: seq<string>, t: Target, sha256: Digest, size: nat)
    requires parts != [] && Placed(a, b, root, parts, t)
    requires b.inodes[t.ino].node.Regular? && Sha256(b.inodes[t.ino].node.content) == sha256
    requires |b.inodes[t.ino].node.content| == size
    ensures Ready(b, root, parts, Source(t.handle, t.parent, StatOf(b, t.ino)), sha256, size)
  {
    hide Descend, Lookup, Unlinked, CanUnlink;
    PathStays(a, b, root, parts, t);
    PlacedUnlinked(a, b, root, parts, t);
  }

  /** An identity seen again still means the same content. */
  lemma ContentStays(trace: seq<Disk>, at: nat, later: nat, identity: Stat, sha256: Digest, size: nat)
    requires History(trace) && at <= later < |trace|
    requires HasContent(trace[at], identity, sha256, size)
    requires identity.ino in trace[later].inodes && StatOf(trace[later], identity.ino) == identity
    ensures HasContent(trace[later], identity, sha256, size)
  {
    SameIdentityPins(trace, at, at, later, identity.ino);
  }

  /** Finding and opening the source as an unshared regular file of the expected size. */
  method OpenSource(k: Kernel, root: string, parts: seq<string>, size: nat) returns (r: Option<Source>)
    requires k.Valid() && parts != []
    modifies k
    ensures k.Valid() && old(k.trace) <= k.trace
    ensures Calm(old(k.script), old(k.disk), old(k.trace), k.script, k.disk, k.trace)
    ensures r.Some? ==>
              && r.value.handle.ino in k.disk.inodes
              && r.value.identity.ino in k.disk.inodes
              && StatOf(k.disk, r.value.identity.ino) == r.value.identity
              && r.value.identity.kind == RegularFile && r.value.identity.links == 1
              && r.value.identity.size == size
    ensures Quiet(old(k.script)) && r.Some? ==> HeldSource(old(k.disk), root, parts, r.value)
    ensures Quiet(old(k.script)) && r.None? ==>
              k.faults > old(k.faults) || !SizedAs(old(k.disk), root, parts, size)
    ensures k.faults >= old(k.faults)
  {
    hide Lookup, History, Walk, Evolves, Good, Reached, StatOf, Rooted;
    r := None;
    var path, _ := OpenPath(k, root, parts);
    if path.None? { return; }
    ghost var trace0 := k.trace;
    var handle, parent := path.value.0, path.value.1;
    if Quiet(old(k.script)) && SizedAs(k.disk, root, parts, size) {
      StatTells(k.disk, Lookup(k.disk, parent, Leaf(parts)).value, size);
    }
    var before := k.StatAt(parent, Leaf(parts));
    if before.None? || before.value.kind != RegularFile || before.value.links != 1
       || before.value.size != size {
      return;
    }
    var descriptor := k.OpenAt(parent, Leaf(parts));
    if descriptor.None? { return; }
    var held := k.Fstat(descriptor.value);
    if held != before { return; }
    InodesGrow(trace0, k.trace);
    StatTells(k.disk, descriptor.value, size);
    r := Some(Source(handle, parent, held.value));
  }

  /** The path leads to an unshared file of exactly this size. */
  predicate SizedAs(d: Disk, root: string, parts: seq<string>, size: nat)
    requires parts != []
  {
    var o := PathSight(d, root, parts, size);
    o.Some? && |o.value.content| == size
  }

  /** The held source is what its path leads to. */
  predicate HeldSource(d: Disk, root: string, parts: seq<string>, s: Source)
    requires parts != []
  {
    && Rooted(d, root, s.handle) && Reached(d, root, Above(parts)) == Some(s.parent)
    && Named(d, s.parent, Leaf(parts), s.identity)
  }

  /** Whether the source is as bound shows in the held file alone. */
  lemma HeldDecides(d: Disk, root: string, parts: seq<string>, s: Source, expected: FileBinding)
    requires parts != [] && HeldSource(d, root, parts, s)
    requires expected.path == parts && expected.size <= MAX_STREAMED_EVIDENCE_BYTES
    ensures AsBound(d, root, parts, expected) <==> HasContent(d, s.identity, expected.sha256, expected.size)
    ensures AsBound(d, root, parts, expected) <==> Ready(d, root, parts, s, expected.sha256, expected.size)
    ensures s.identity.ino in d.inodes
  {
    hide Descend, Lookup;
  }

  /** The checks on the expected binding, and the source opened under it. */
  method OpenBound(k: Kernel, root: string, parts: seq<string>, expected: FileBinding) returns (r: Option<Source>)
    requires k.Valid() && parts != []
    modifies k
    ensures k.Valid() && old(k.trace) <= k.trace
    ensures Calm(old(k.script), old(k.disk), old(k.trace), k.script, k.disk, k.trace)
    ensures r.Some? ==>
              && expected.path == parts && expected.size <= MAX_STREAMED_EVIDENCE_BYTES
              && r.value.handle.ino in k.disk.inodes && r.value.identity.ino in k.disk.inodes
              && StatOf(k.disk, r.value.identity.ino) == r.value.identity && r.value.identity.links == 1
    ensures Quiet(old(k.script)) && r.Some? ==>
              var d, s := old(k.disk), r.value;
              && s.identity.ino in d.inodes
              && (AsBound(d, root, parts, expected) <==> HasContent(d, s.identity, expected.sha256, expected.size))
              && (AsBound(d, root, parts, expected) <==> Ready(d, root, parts, s, expected.sha256, expected.size))
    ensures Quiet(old(k.script)) && r.None? ==> k.faults > old(k.faults) || !AsBound(old(k.disk), root, parts, expected)
    ensures k.faults >= old(k.faults)
  {
    hide AsBound, HasContent, Ready, StatOf, HeldSource, SizedAs, History;
    BoundIsSized(k.disk, root, parts, expected);
    if expected.path != parts || expected.size > MAX_STREAMED_EVIDENCE_BYTES { return None; }
    ghost var d := k.disk;
    r := OpenSource(k, root, parts, expected.size);
    if Quiet(old(k.script)) && r.Some? { HeldDecides(d, root, parts, r.value, expected); }
  }

  lemma BoundIsSized(d: Disk, root: string, parts: seq<string>, expected: FileBinding)
    requires parts != []
    ensures AsBound(d, root, parts, expected) ==>
              && expected.path == parts && expected.size <= MAX_STREAMED_EVIDENCE_BYTES
              && SizedAs(d, root, parts, expected.size)
  {
    hide PathSight;
  }

  /** The source's held and named identities after streaming. */
  method CheckSource(k: Kernel, s: Source, leaf: string) returns (ok: bool)
    requires k.Valid() && s.identity.ino in k.disk.inodes
    modifies k
    ensures k.Valid() && old(k.trace) <= k.trace
    ensures Calm(old(k.script), old(k.disk), old(k.trace), k.script, k.disk, k.trace)
    ensures ok ==> s.identity.ino in k.disk.inodes && StatOf(k.disk, s.identity.ino) == s.identity
    ensures Quiet(old(k.script)) && !ok ==>
              k.faults > old(k.faults) || !Named(old(k.disk), s.parent, leaf, s.identity)
    ensures k.faults >= old(k.faults)
  {
    hide Lookup, History, Evolves, Good;
    var finished := k.Fstat(s.identity.ino);
    var after := k.StatAt(s.parent, leaf);
    ok := finished == Some(s.identity) && after == Some(s.identity);
  }

  /** A hash taken between two sights of one identity is the hash of that file's content. */
  lemma HashedContent(trace: seq<Disk>, a: nat, b: nat, c: nat, at: nat, s: Stat, sha256: Digest, size: nat)
    requires History(trace) && a <= b <= c <= at < |trace|
    requires s.ino in trace[a].inodes && s.ino in trace[b].inodes && s.ino in trace[c].inodes
    requires s.ino in trace[at].inodes
    requires StatOf(trace[a], s.ino) == s == StatOf(trace[at], s.ino)
    requires trace[c].inodes[s.ino] == trace[b].inodes[s.ino] ==>
               && trace[c].inodes[s.ino].node.Regular?
               && Sha256(trace[c].inodes[s.ino].node.content) == sha256
               && |trace[c].inodes[s.ino].node.content| == size
    requires s.links == 1
    ensures HasContent(trace[at], s, sha256, size)
  {
    SameIdentityPins(trace, a, b, at, s.ino);
    SameIdentityPins(trace, a, c, at, s.ino);
  }

  /** Hashing a held file after a look at its identity. */
  method Rehash(k: Kernel, i: Ino) returns (r: Option<(Stat, (Digest, nat))>, ghost a: nat, ghost b: nat)
    requires k.Valid() && i in k.disk.inodes
    modifies k
    ensures k.Valid() && old(k.trace) <= k.trace && i in k.disk.inodes
    ensures Calm(old(k.script), old(k.disk), old(k.trace), k.script, k.disk, k.trace)
    ensures r.Some? ==>
              && |old(k.trace)| - 1 <= a <= b < |k.trace|
              && i in k.trace[a].inodes && StatOf(k.trace[a], i) == r.value.0 && i in k.trace[b].inodes
              && (k.disk.inodes[i] == k.trace[b].inodes[i] ==>
                    && k.disk.inodes[i].node.Regular?
                    && r.value.1 == (Sha256(k.disk.inodes[i].node.content), |k.disk.inodes[i].node.content|))
    ensures Quiet(old(k.script)) && r.Some? ==>
              && r.value.0 == StatOf(old(k.disk), i) && old(k.disk).inodes[i].node.Regular?
              && r.value.1 == (Sha256(old(k.disk).inodes[i].node.content), |old(k.disk).inodes[i].node.content|)
    ensures Quiet(old(k.script)) && r.None? ==>
              k.faults > old(k.faults) || !Bounded(old(k.disk).inodes[i].node, MAX_STREAMED_EVIDENCE_BYTES)
    ensures k.faults >= old(k.faults)
  {
    hide Lookup, History, StatOf, Evolves, Good, Bounded;
    r, a, b := None, 0, 0;
    var seen := k.Fstat(i);
    a := |k.trace| - 1;
    ghost var trace0 := k.trace;
    var ok := k.Settle();
    if !ok || seen.None? { return; }
    InodesGrow(trace0, k.trace);
    b := |k.trace| - 1;
    ghost var trace1 := k.trace;
    var hashed := HashDescriptor(k, i, MAX_STREAMED_EVIDENCE_BYTES);
    if hashed.Err? { return; }
    assert k.trace[a] == trace0[a] && k.trace[b] == trace1[b];
    r := Some((seen.value, hashed.value));
  }

  /** Reading the destination back through its held descriptor. */
  method VerifyDestination(k: Kernel, t: Target, leaf: string, sha256: Digest, size: nat)
    returns (r: Option<Stat>, ghost at: nat)
    requires k.Valid() && t.ino in k.disk.inodes
    modifies k
    ensures k.Valid() && old(k.trace) <= k.trace
    ensures Calm(old(k.script), old(k.disk), old(k.trace), k.script, k.disk, k.trace)
    ensures r.Some? ==> |old(k.trace)| - 1 <= at < |k.trace| && r.value.kind == RegularFile
                        && r.value.links == 1 && r.value.mode == 384 && HasContent(k.trace[at], r.value, sha256, size)
    ensures Quiet(old(k.script)) && r.Some? ==> r.value == StatOf(old(k.disk), t.ino)
    ensures Quiet(old(k.script)) && r.None? ==>
              k.faults > old(k.faults) || !Written(old(k.disk), t, leaf, sha256, size)
    ensures k.faults >= old(k.faults)
  {
    hide Lookup, History, StatOf, HasContent, Evolves, Good, Bounded, Written;
    r, at := None, 0;
    WrittenMeans(k.disk, t, leaf, sha256, size);
    var hashed;
    ghost var a: nat, b: nat;
    hashed, a, b := Rehash(k, t.ino);
    if hashed.None? { return; }
    var written := hashed.value.0;
    ghost var c, trace0 := |k.trace| - 1, k.trace;
    var verified := k.Fstat(t.ino);
    var entry := k.StatAt(t.parent, leaf);
    if verified.None? || entry.None? || written.ino != t.ino || written != verified.value
       || verified != entry || verified.value.links != 1 || verified.value.mode != PRIVATE_MODE
       || entry.value.kind != RegularFile || hashed.value.1 != (sha256, size) {
      return;
    }
    at := |k.trace| - 1;
    assert k.trace[a] == trace0[a] && k.trace[b] == trace0[b] && k.trace[c] == trace0[c];
    HashedContent(k.trace, a, b, c, at, written, sha256, size);
    ghost var trace1 := k.trace;
    var ok := k.Settle();
    if !ok { return None, at; }
    assert k.trace[at] == trace1[at];
    return verified, at;
  }

  /** The created file is at its name, private, with content of this digest and size. */
  predicate Written(d: Disk, t: Target, leaf: string, sha256: Digest, size: nat) {
    && Lookup(d, t.parent, leaf) == Some(t.ino) && size <= MAX_STREAMED_EVIDENCE_BYTES
    && HasContent(d, StatOf(d, t.ino), sha256, size) && d.inodes[t.ino].node.mode == PRIVATE_MODE
  }

  lemma WrittenMeans(d: Disk, t: Target, leaf: string, sha256: Digest, size: nat)
    requires t.ino in d.inodes
    ensures StatOf(d, t.ino).ino == t.ino
    ensures Written(d, t, leaf, sha256, size) ==>
              var node, s := d.inodes[t.ino].node, StatOf(d, t.ino);
              && Lookup(d, t.parent, leaf) == Some(t.ino)
              && Bounded(node, MAX_STREAMED_EVIDENCE_BYTES) && Sha256(node.content) == sha256 && |node.content| == size
              && s.kind == RegularFile && s.links == 1 && s.mode == PRIVATE_MODE
  {
    hide Lookup;
  }

  /** At instant `at` the path below the held root leads to inode `i`, its parents having been
      looked up in order since `from`. */
  ghost predicate PathAt(trace: seq<Disk>, from: nat, at: nat, handle: RootHandle, parts: seq<string>,
                         dir: Ino, i: Ino)
    requires parts != []
  {
    && from <= at < |trace|
    && Walk(trace, from, at, handle.ino, Above(parts), dir)
    && Lookup(trace[at], dir, Leaf(parts)) == Some(i)
  }

  lemma PathExtends(trace: seq<Disk>, trace': seq<Disk>, from: nat, at: nat, handle: RootHandle,
                    parts: seq<string>, dir: Ino, i: Ino)
    requires parts != [] && trace <= trace' && PathAt(trace, from, at, handle, parts, dir, i)
    ensures PathAt(trace', from, at, handle, parts, dir, i)
  {
    hide Lookup;
    WalkExtends(trace, trace', from, at, at, handle.ino, Above(parts), dir);
    assert trace'[at] == trace[at];
  }

  /** An entry with the expected identity, seen alike by name and through a descriptor. */
  method SeeSame(k: Kernel, dir: Ino, leaf: string, expected: Stat) returns (ok: bool)
    requires k.Valid()
    modifies k
    ensures k.Valid() && old(k.trace) <= k.trace
    ensures Calm(old(k.script), old(k.disk), old(k.trace), k.script, k.disk, k.trace)
    ensures ok ==> Named(k.disk, dir, leaf, expected) && expected.kind == RegularFile && expected.links == 1
    ensures Quiet(old(k.script)) && !ok ==>
              k.faults > old(k.faults) || !Named(old(k.disk), dir, leaf, expected)
              || expected.kind != RegularFile || expected.links != 1
    ensures k.faults >= old(k.faults)
  {
    hide Lookup, History, Evolves, Good, StatOf;
    ok := false;
    if Named(k.disk, dir, leaf, expected) { StatTells(k.disk, expected.ino, 0); }
    var before := k.StatAt(dir, leaf);
    if before != Some(expected) || before.value.kind != RegularFile || before.value.links != 1 { return; }
    var descriptor := k.OpenAt(dir, leaf);
    if descriptor.None? { return; }
    var held := k.Fstat(descriptor.value);
    var finished := k.Fstat(descriptor.value);
    var after := k.StatAt(dir, leaf);
    ok := held == Some(expected) && finished == Some(expected) && after == Some(expected);
  }

  /** `_require_same_relative_file`. */
  method RequireSameRelativeFile(k: Kernel, handle: RootHandle, parts: seq<string>, expected: Stat)
    returns (ok: bool, ghost parent: Ino)
    requires k.Valid() && parts != [] && handle.ino in k.disk.inodes
    modifies k
    ensures k.Valid() && old(k.trace) <= k.trace
    ensures Calm(old(k.script), old(k.disk), old(k.trace), k.script, k.disk, k.trace)
    ensures ok ==>
              && PathAt(k.trace, |old(k.trace)| - 1, |k.trace| - 1, handle, parts, parent, expected.ino)
              && expected.ino in k.disk.inodes && StatOf(k.disk, expected.ino) == expected
              && expected.kind == RegularFile && expected.links == 1
    ensures Quiet(old(k.script)) && !ok ==>
              k.faults > old(k.faults) || !Located(old(k.disk), handle, parts, expected)
    ensures k.faults >= old(k.faults)
  {
    hide Lookup, History, Walk, Evolves, Good, StatOf, Descend;
    ok, parent := false, 0;
    var found := OpenParent(k, handle.ino, parts);
    if found.None? { return; }
    parent := found.value;
    ghost var trace0 := k.trace;
    ok := SeeSame(k, found.value, Leaf(parts), expected);
    if !ok { return; }
    WalkExtends(trace0, k.trace, |old(k.trace)| - 1, |trace0| - 1, |k.trace| - 1, handle.ino, Above(parts), parent);
  }

  /** When the last identity checks of a copy were made, and through which directories. */
  datatype Checks = Checks(
    sourceRooted: nat, destinationRooted: nat,
    sourceDir: Ino, sourceFrom: nat, sourceAt: nat,
    destinationDir: Ino, destinationFrom: nat, destinationAt: nat,
    sourceRootedAgain: nat, destinationRootedAgain: nat)

  /** Both roots and both paths were seen in place, roots first and last. */
  ghost predicate Rechecked(trace: seq<Disk>, from: nat, sourceRoot: string, sourceParts: seq<string>,
                            source: RootHandle, s: Stat, destinationRoot: string,
                            destinationParts: seq<string>, destination: RootHandle, d: Stat, w: Checks)
    requires sourceParts != [] && destinationParts != []
  {
    && from <= w.sourceRooted <= w.destinationRooted <= w.sourceFrom
    && w.sourceAt <= w.destinationFrom && w.destinationAt <= w.sourceRootedAgain
    && w.sourceRootedAgain <= w.destinationRootedAgain < |trace|
    && PathAt(trace, w.sourceFrom, w.sourceAt, source, sourceParts, w.sourceDir, s.ino)
    && PathAt(trace, w.destinationFrom, w.destinationAt, destination, destinationParts, w.destinationDir, d.ino)
    && Rooted(trace[w.sourceRooted], sourceRoot, source)
    && Rooted(trace[w.destinationRooted], destinationRoot, destination)
    && Rooted(trace[w.sourceRootedAgain], sourceRoot, source)
    && Rooted(trace[w.destinationRootedAgain], destinationRoot, destination)
  }

  /** Both nested paths, the source first. */
  method RecheckFiles(k: Kernel, sourceParts: seq<string>, source: RootHandle, s: Stat,
                      destinationParts: seq<string>, destination: RootHandle, d: Stat)
    returns (ok: bool, ghost sourceDir: Ino, ghost sourceAt: nat, ghost destinationDir: Ino)
    requires k.Valid() && sourceParts != [] && destinationParts != []
    requires source.ino in k.disk.inodes && destination.ino in k.disk.inodes
    modifies k
    ensures k.Valid() && old(k.trace) <= k.trace
    ensures Calm(old(k.script), old(k.disk), old(k.trace), k.script, k.disk, k.trace)
    ensures ok ==>
              && PathAt(k.trace, |old(k.trace)| - 1, sourceAt, source, sourceParts, sourceDir, s.ino)
              && PathAt(k.trace, sourceAt, |k.trace| - 1, destination, destinationParts, destinationDir, d.ino)
              && |old(k.trace)| - 1 <= sourceAt < |k.trace|
              && s.ino in k.trace[sourceAt].inodes && StatOf(k.trace[sourceAt], s.ino) == s
              && d.ino in k.disk.inodes && StatOf(k.disk, d.ino) == d
              && s.kind == RegularFile && s.links == 1 && d.kind == RegularFile && d.links == 1
    ensures Quiet(old(k.script)) && !ok ==>
              k.faults > old(k.faults) || !Located(old(k.disk), source, sourceParts, s)
              || !Located(old(k.disk), destination, destinationParts, d)
    ensures k.faults >= old(k.faults)
  {
    hide Lookup, History, Walk, StatOf, Evolves, Good, PathAt, Located;
    sourceAt, destinationDir := 0, 0;
    ok, sourceDir := RequireSameRelativeFile(k, source, sourceParts, s);
    if !ok { return; }
    sourceAt := |k.trace| - 1;
    ghost var t := k.trace;
    InodesGrow(old(k.trace), t);
    ok, destinationDir := RequireSameRelativeFile(k, destination, destinationParts, d);
    if !ok { return; }
    PathExtends(t, k.trace, |old(k.trace)| - 1, sourceAt, source, sourceParts, sourceDir, s.ino);
    assert k.trace[sourceAt] == t[sourceAt];
  }

  /** Both roots, the source's first. */
  method RecheckRoots(k: Kernel, sourceRoot: string, source: RootHandle, destinationRoot: string,
                      destination: RootHandle)
    returns (ok: bool, ghost at: nat)
    requires k.Valid()
    modifies k
    ensures k.Valid() && old(k.trace) <= k.trace
    ensures Calm(old(k.script), old(k.disk), old(k.trace), k.script, k.disk, k.trace)
    ensures ok ==> |old(k.trace)| - 1 <= at < |k.trace| && Rooted(k.trace[at], sourceRoot, source)
                   && Rooted(k.disk, destinationRoot, destination)
    ensures Quiet(old(k.script)) && !ok ==>
              k.faults > old(k.faults) || !Rooted(old(k.disk), sourceRoot, source)
              || !Rooted(old(k.disk), destinationRoot, destination)
    ensures k.faults >= old(k.faults)
  {
    hide History, Rooted, Evolves, Good;
    at := 0;
    ok := RequireSameRoot(k, sourceRoot, source);
    if !ok { return; }
    at := |k.trace| - 1;
    ghost var trace0 := k.trace;
    ok := RequireSameRoot(k, destinationRoot, destination);
    assert k.trace[at] == trace0[at];
  }

  /** Both roots, both nested paths, and both roots again. */
  method RecheckPaths(k: Kernel, sourceRoot: string, sourceParts: seq<string>, source: RootHandle, s: Stat,
                      destinationRoot: string, destinationParts: seq<string>, destination: RootHandle, d: Stat)
    returns (ok: bool, ghost w: Checks)
    requires k.Valid() && sourceParts != [] && destinationParts != []
    requires source.ino in k.disk.inodes && destination.ino in k.disk.inodes
    modifies k
    ensures k.Valid() && old(k.trace) <= k.trace
    ensures Calm(old(k.script), old(k.disk), old(k.trace), k.script, k.disk, k.trace)
    ensures ok ==>
              && Rechecked(k.trace, |old(k.trace)| - 1, sourceRoot, sourceParts, source, s,
                           destinationRoot, destinationParts, destination, d, w)
              && s.ino in k.trace[w.sourceAt].inodes && StatOf(k.trace[w.sourceAt], s.ino) == s
              && d.ino in k.trace[w.destinationAt].inodes && StatOf(k.trace[w.destinationAt], d.ino) == d
              && s.kind == RegularFile && s.links == 1 && d.kind == RegularFile && d.links == 1
    ensures Quiet(old(k.script)) && !ok ==>
              k.faults > old(k.faults)
              || !Rooted(old(k.disk), sourceRoot, source) || !Rooted(old(k.disk), destinationRoot, destination)
              || !Located(old(k.disk), source, sourceParts, s)
              || !Located(old(k.disk), destination, destinationParts, d)
    ensures k.faults >= old(k.faults)
  {
    hide Lookup, History, Walk, StatOf, Evolves, Good, Rooted, PathAt, Located;
    w := Checks(0, 0, 0, 0, 0, 0, 0, 0, 0, 0);
    ghost var rooted: nat, rootedAgain: nat, sourceDir: Ino, destinationDir: Ino, sourceAt: nat;
    ok, rooted := RecheckRoots(k, sourceRoot, source, destinationRoot, destination);
    ghost var t2 := k.trace;
    InodesGrow(old(k.trace), t2);
    if !ok { return; }
    ok, sourceDir, sourceAt, destinationDir :=
      RecheckFiles(k, sourceParts, source, s, destinationParts, destination, d);
    ghost var t3 := k.trace;
    if !ok { return; }
    ok, rootedAgain := RecheckRoots(k, sourceRoot, source, destinationRoot, destination);
    if !ok { return; }
    w := Checks(rooted, |t2| - 1, sourceDir, |t2| - 1, sourceAt, destinationDir, sourceAt, |t3| - 1,
                rootedAgain, |k.trace| - 1);
    PathExtends(t3, k.trace, |t2| - 1, sourceAt, source, sourceParts, sourceDir, s.ino);
    PathExtends(t3, k.trace, sourceAt, |t3| - 1, destination, destinationParts, destinationDir, d.ino);
    assert k.trace[rooted] == t2[rooted] && k.trace[|t2| - 1] == t2[|t2| - 1]
        && k.trace[|t3| - 1] == t3[|t3| - 1] && k.trace[sourceAt] == t3[sourceAt];
  }

  /** What a copy that returns has shown: at their last identity checks both paths led to unshared
      regular files whose whole content had the expected digest and size. */
  ghost predicate Copied(trace: seq<Disk>, from: nat, sourceRoot: string, sourceParts: seq<string>,
                         destinationRoot: string, destinationParts: seq<string>,
                         sha256: Digest, size: nat, source: RootHandle, s: Stat,
                         destination: RootHandle, d: Stat, w: Checks)
    requires sourceParts != [] && destinationParts != []
  {
    && Rechecked(trace, from, sourceRoot, sourceParts, source, s,
                 destinationRoot, destinationParts, destination, d, w)
    && HasContent(trace[w.sourceAt], s, sha256, size)
    && HasContent(trace[w.destinationAt], d, sha256, size)
  }

  lemma RecheckedOrder(trace: seq<Disk>, from: nat, sourceRoot: string, sourceParts: seq<string>,
                       source: RootHandle, s: Stat, destinationRoot: string,
                       destinationParts: seq<string>, destination: RootHandle, d: Stat, w: Checks)
    requires sourceParts != [] && destinationParts != []
    requires Rechecked(trace, from, sourceRoot, sourceParts, source, s,
                       destinationRoot, destinationParts, destination, d, w)
    ensures from <= w.sourceAt <= w.destinationAt < |trace|
  {
    hide Lookup, Walk;
  }

  lemma RecheckedLater(trace: seq<Disk>, from: nat, from': nat, sourceRoot: string, sourceParts: seq<string>,
                       source: RootHandle, s: Stat, destinationRoot: string,
                       destinationParts: seq<string>, destination: RootHandle, d: Stat, w: Checks)
    requires sourceParts != [] && destinationParts != [] && from' <= from
    requires Rechecked(trace, from, sourceRoot, sourceParts, source, s,
                       destinationRoot, destinationParts, destination, d, w)
    ensures Rechecked(trace, from', sourceRoot, sourceParts, source, s,
                      destinationRoot, destinationParts, destination, d, w)
  {
    hide Lookup, Walk, PathAt;
  }

  lemma ContentBounds(d: Disk, identity: Stat, sha256: Digest, size: nat)
    ensures HasContent(d, identity, sha256, size) ==>
              && identity.ino in d.inodes && Bounded(d.inodes[identity.ino].node, size)
              && Sha256(d.inodes[identity.ino].node.content) == sha256 && |d.inodes[identity.ino].node.content| == size
    ensures size <= MAX_STREAMED_EVIDENCE_BYTES && HasContent(d, identity, sha256, size) ==>
              Bounded(d.inodes[identity.ino].node, MAX_STREAMED_EVIDENCE_BYTES)
  {
  }

  lemma CopiedLater(trace: seq<Disk>, from: nat, from': nat, sourceRoot: string, sourceParts: seq<string>,
                    destinationRoot: string, destinationParts: seq<string>, sha256: Digest, size: nat,
                    source: RootHandle, s: Stat, destination: RootHandle, d: Stat, w: Checks)
    requires sourceParts != [] && destinationParts != [] && from' <= from
    requires Copied(trace, from, sourceRoot, sourceParts, destinationRoot, destinationParts, sha256, size,
                    source, s, destination, d, w)
    ensures Copied(trace, from', sourceRoot, sourceParts, destinationRoot, destinationParts, sha256, size,
                   source, s, destination, d, w)
  {
    hide Rechecked, HasContent;
    RecheckedLater(trace, from, from', sourceRoot, sourceParts, source, s,
                   destinationRoot, destinationParts, destination, d, w);
  }

  /** Streaming, and the check that the source was the same file before and after. */
  method StreamPhase(k: Kernel, source: Source, leaf: string, t: Target, sha256: Digest, size: nat, ghost lo: nat)
    returns (ok: bool)
    requires k.Valid() && source.identity.links == 1
    requires source.identity.ino in k.disk.inodes && t.ino in k.disk.inodes && source.identity.ino != t.ino
    requires lo < |k.trace| && source.identity.ino in k.trace[lo].inodes
    requires StatOf(k.trace[lo], source.identity.ino) == source.identity
    modifies k
    ensures k.Valid() && old(k.trace) <= k.trace && t.ino in k.disk.inodes
    ensures ok ==> HasContent(k.disk, source.identity, sha256, size)
    ensures Quiet(old(k.script)) ==> Quiet(k.script)
    ensures Quiet(old(k.script)) && old(k.disk).inodes[t.ino].node.Regular?
            && old(k.disk).inodes[t.ino].node.content == [] ==>
              && Rewritten(old(k.disk), k.disk, t.ino)
              && k.disk.inodes[t.ino].node.Regular?
              && k.disk.inodes[t.ino].node.links == old(k.disk).inodes[t.ino].node.links
              && k.disk.inodes[t.ino].node.mode == old(k.disk).inodes[t.ino].node.mode
              && (ok ==> Sha256(k.disk.inodes[t.ino].node.content) == sha256
                         && |k.disk.inodes[t.ino].node.content| == size)
              && (!ok ==> k.faults > old(k.faults)
                          || !HasContent(old(k.disk), source.identity, sha256, size)
                          || !Named(old(k.disk), source.parent, leaf, source.identity)
                          || size > MAX_STREAMED_EVIDENCE_BYTES)
              && Rewriting(old(k.disk), k.trace, |old(k.trace)|, t.ino)
    ensures k.faults >= old(k.faults)
  {
    hide History, StatOf, Evolves, Good, Lookup, Rewritten, HasContent, Named, Bounded, Rewriting;
    ghost var i := source.identity.ino;
    ghost var t0, d0 := k.trace, k.disk;
    var streamed := StreamChunks(k, source.identity.ino, t.ino);
    ContentBounds(d0, source.identity, sha256, size);
    if streamed.Err? { return false; }
    if Quiet(old(k.script)) { NamedRewritten(d0, k.disk, t.ino, source.parent, leaf, source.identity); }
    ghost var t1 := k.trace;
    ok := k.Settle();
    InodesGrow(t1, k.trace);
    if !ok { return; }
    ok := CheckSource(k, source, leaf);
    InodesGrow(t1, k.trace);
    if !ok || streamed.value != (sha256, size) { return false; }
    assert k.trace[lo] == t0[lo] && k.trace[|t0| - 1] == t0[|t0| - 1] && k.trace[|t1| - 1] == t1[|t1| - 1];
    HashedContent(k.trace, lo, |t0| - 1, |t1| - 1, |k.trace| - 1, source.identity, sha256, size);
  }

  /** Verifying the destination and rechecking both paths. */
  method CheckPhase(k: Kernel, sourceRoot: string, sourceParts: seq<string>, source: Source,
                    destinationRoot: string, destinationParts: seq<string>, t: Target,
                    sha256: Digest, size: nat)
    returns (ok: bool, ghost d: Stat, ghost w: Checks)
    requires k.Valid() && sourceParts != [] && destinationParts != []
    requires source.handle.ino in k.disk.inodes && t.handle.ino in k.disk.inodes && t.ino in k.disk.inodes
    requires HasContent(k.disk, source.identity, sha256, size)
    modifies k
    ensures k.Valid() && old(k.trace) <= k.trace
    ensures ok ==> Copied(k.trace, |old(k.trace)| - 1, sourceRoot, sourceParts, destinationRoot,
                          destinationParts, sha256, size, source.handle, source.identity, t.handle, d, w)
    ensures ok ==> d.mode == 384
    ensures Calm(old(k.script), old(k.disk), old(k.trace), k.script, k.disk, k.trace)
    ensures Quiet(old(k.script)) && !ok ==>
              k.faults > old(k.faults)
              || !Ready(old(k.disk), sourceRoot, sourceParts, source, sha256, size)
              || !Ready(old(k.disk), destinationRoot, destinationParts,
                        Source(t.handle, t.parent, StatOf(old(k.disk), t.ino)), sha256, size)
              || !Written(old(k.disk), t, Leaf(destinationParts), sha256, size)
    ensures k.faults >= old(k.faults)
  {
    hide History, StatOf, Evolves, Good, Lookup, Rechecked, HasContent, Rooted, Located, Named, Written;
    ghost var t0 := k.trace;
    d, w := source.identity, Checks(0, 0, 0, 0, 0, 0, 0, 0, 0, 0);
    var verified;
    ghost var at: nat;
    verified, at := VerifyDestination(k, t, Leaf(destinationParts), sha256, size);
    if verified.None? { return false, d, w; }
    d := verified.value;
    ghost var t1 := k.trace;
    InodesGrow(t0, t1);
    ok, w := RecheckPaths(k, sourceRoot, sourceParts, source.handle, source.identity,
                          destinationRoot, destinationParts, t.handle, verified.value);
    if !ok { return; }
    assert k.trace[|t0| - 1] == t0[|t0| - 1] && k.trace[at] == t1[at];
    RecheckedOrder(k.trace, |t1| - 1, sourceRoot, sourceParts, source.handle, source.identity,
                   destinationRoot, destinationParts, t.handle, d, w);
    ContentStays(k.trace, |t0| - 1, w.sourceAt, source.identity, sha256, size);
    ContentStays(k.trace, at, w.destinationAt, d, sha256, size);
    RecheckedLater(k.trace, |t1| - 1, |t0| - 1, sourceRoot, sourceParts, source.handle, source.identity,
                   destinationRoot, destinationParts, t.handle, d, w);
  }

  /** The copy into a file just created. */
  method CopyInto(k: Kernel, sourceRoot: string, sourceParts: seq<string>, source: Source,
                  destinationRoot: string, destinationParts: seq<string>, t: Target,
                  sha256: Digest, size: nat, ghost d0: Disk, ghost lo: nat)
    returns (ok: bool, ghost d: Stat, ghost w: Checks)
    requires k.Valid() && sourceParts != [] && destinationParts != [] && source.identity.links == 1
    requires source.identity.ino in k.disk.inodes && t.ino in k.disk.inodes && source.identity.ino != t.ino
    requires source.handle.ino in k.disk.inodes && t.handle.ino in k.disk.inodes
    requires lo < |k.trace| && source.identity.ino in k.trace[lo].inodes
    requires StatOf(k.trace[lo], source.identity.ino) == source.identity
    modifies k
    ensures k.Valid() && old(k.trace) <= k.trace
    ensures ok ==> Copied(k.trace, |old(k.trace)| - 1, sourceRoot, sourceParts, destinationRoot,
                          destinationParts, sha256, size, source.handle, source.identity, t.handle, d, w)
    ensures ok ==> d.mode == 384
    ensures Quiet(old(k.script)) ==> Quiet(k.script)
    ensures Quiet(old(k.script)) && Placed(d0, old(k.disk), destinationRoot, destinationParts, t)
            && old(k.disk).inodes[t.ino].node == EmptyFile() ==>
              && Placed(d0, k.disk, destinationRoot, destinationParts, t)
              && (if ok then Sha256(k.disk.inodes[t.ino].node.content) == sha256
                             && (source.identity.ino in d0.inodes ==> HasContent(d0, source.identity, sha256, size))
                  else k.faults > old(k.faults) || size > MAX_STREAMED_EVIDENCE_BYTES
                       || !Ready(d0, sourceRoot, sourceParts, source, sha256, size))
              && Touching(d0, k.trace, |old(k.trace)|, destinationRoot, destinationParts)
    ensures k.faults >= old(k.faults)
  {
    hide History, StatOf, Evolves, Good, Lookup, Rooted, Located, Named, HasContent, Rewritten, Placed,
         Copied, Written, Ready, Touching, Rewriting;
    ghost var t0, d1 := k.trace, k.disk;
    ghost var fresh0 := Quiet(old(k.script)) && Placed(d0, d1, destinationRoot, destinationParts, t)
                        && d1.inodes[t.ino].node == EmptyFile();
    d, w := source.identity, Checks(0, 0, 0, 0, 0, 0, 0, 0, 0, 0);
    ghost var ready := fresh0 && Ready(d0, sourceRoot, sourceParts, source, sha256, size);
    if ready {
      ReadyAfter(d0, d1, sourceRoot, sourceParts, source, sha256, size, destinationRoot, destinationParts, t);
    }
    ok := StreamPhase(k, source, Leaf(sourceParts), t, sha256, size, lo);
    if fresh0 {
      RewrittenPlaced(d0, d1, k.disk, destinationRoot, destinationParts, t);
      PlacedRewriting(d0, d1, k.trace, |t0|, destinationRoot, destinationParts, t);
    }
    if !ok { return; }
    if fresh0 {
      PlacedWritten(d0, k.disk, destinationRoot, destinationParts, t, sha256, size);
      if source.identity.ino in d0.inodes {
        ContentWasThere(d0, k.disk, destinationRoot, destinationParts, t, source.identity, sha256, size);
      }
    }
    if ready {
      ReadyAfter(d0, k.disk, sourceRoot, sourceParts, source, sha256, size, destinationRoot, destinationParts, t);
    }
    ghost var t1 := k.trace;
    InodesGrow(t0, t1);
    ok, d, w := CheckPhase(k, sourceRoot, sourceParts, source, destinationRoot, destinationParts, t, sha256, size);
    if ok {
      CopiedLater(k.trace, |t1| - 1, |t0| - 1, sourceRoot, sourceParts, destinationRoot, destinationParts,
                  sha256, size, source.handle, source.identity, t.handle, d, w);
    }
  }

  lemma ReadyAfter(a: Disk, b: Disk, root: string, parts: seq<string>, file: Source, sha256: Digest, size: nat,
                   root': string, parts': seq<string>, t: Target)
    requires parts != [] && parts' != [] && Ready(a, root, parts, file, sha256, size)
    requires Placed(a, b, root', parts', t)
    ensures Ready(b, root, parts, file, sha256, size)
    ensures HasContent(b, file.identity, sha256, size) && Named(b, file.parent, Leaf(parts), file.identity)
  {
    hide Placed, Rooted, Located, Named, HasContent;
    ReadyStays(a, b, root, parts, file, sha256, size, root', parts', t);
  }

  lemma ContentWasThere(a: Disk, b: Disk, root: string, parts: seq<string>, t: Target,
                        identity: Stat, sha256: Digest, size: nat)
    requires parts != [] && Placed(a, b, root, parts, t)
    requires HasContent(b, identity, sha256, size) && identity.ino in a.inodes
    ensures HasContent(a, identity, sha256, size)
  {
    hide Descend, Rooted;
  }

  lemma PlacedWritten(a: Disk, b: Disk, root: string, parts: seq<string>, t: Target, sha256: Digest, size: nat)
    requires parts != [] && Placed(a, b, root, parts, t)
    requires b.inodes[t.ino].node.Regular? && Sha256(b.inodes[t.ino].node.content) == sha256
    requires |b.inodes[t.ino].node.content| == size && b.inodes[t.ino].node.mode == PRIVATE_MODE
    ensures Ready(b, root, parts, Source(t.handle, t.parent, StatOf(b, t.ino)), sha256, size)
    ensures size <= MAX_STREAMED_EVIDENCE_BYTES ==> Written(b, t, Leaf(parts), sha256, size)
  {
    hide Rooted, Located, Placed, Lookup;
    PlacedReady(a, b, root, parts, t, sha256, size);
  }

  /** Cleanup through the held parent, and if that could not do it, through the path. */
  method TakeBack(k: Kernel, root: string, parts: seq<string>, t: Target, ghost d0: Disk)
    requires k.Valid() && parts != []
    modifies k
    ensures k.Valid() && old(k.trace) <= k.trace
    ensures Quiet(old(k.script)) && Placed(d0, old(k.disk), root, parts, t) ==>
              && (Kept(d0, k.disk) || (Placed(d0, k.disk, root, parts, t) && k.faults > old(k.faults)))
              && Touching(d0, k.trace, |old(k.trace)|, root, parts)
    ensures k.faults >= old(k.faults)
  {
    hide Placed, Lookup, Descend, History, Touching;
    ghost var placed := Quiet(k.script) && Placed(d0, k.disk, root, parts, t);
    var done := UnlinkCreatedFileAt(k, root, parts, t, d0);
    if !done {
      ghost var again, trace0 := placed && Placed(d0, k.disk, root, parts, t), k.trace;
      UnlinkCreatedFile(k, root, parts, t.ino, d0, t);
      if again { TouchingJoins(d0, trace0, k.trace, |old(k.trace)|, root, parts); }
    }
  }

  /** `copy_file_evidence`. A copy that returns has shown both paths, at their last identity checks,
      to lead to unshared files whose whole content has the expected digest and size. Without
      outside writers it either adds exactly one file or, if it fails after recording the new file's
      identity, leaves everything as it was unless its own cleanup was made to fail. */
  method CopyFileEvidence(k: Kernel, sourceRoot: string, sourceParts: seq<string>,
                          destinationRoot: string, destinationParts: seq<string>, expected: FileBinding)
    returns (r: Result<FileBinding>, ghost effect: Effect,
             ghost source: RootHandle, ghost s: Stat, ghost d: Stat, ghost w: Checks)
    requires k.Valid() && sourceParts != [] && destinationParts != []
    modifies k
    ensures k.Valid() && old(k.trace) <= k.trace
    ensures r.Ok? ==>
              && expected.path == sourceParts && expected.size <= 4_294_967_296 && d.mode == 384
              && r.value == FileBinding(destinationParts, expected.sha256, expected.size)
              && effect.Recorded?
              && Copied(k.trace, |old(k.trace)| - 1, sourceRoot, sourceParts, destinationRoot, destinationParts,
                        expected.sha256, expected.size, source, s, effect.target.handle, d, w)
    ensures Quiet(old(k.script)) && effect.Nothing? ==> r.Err? && k.disk == old(k.disk)
    ensures Quiet(old(k.script)) && effect.Stray? ==>
              r.Err? && Placed(old(k.disk), k.disk, destinationRoot, destinationParts, effect.target)
              && k.faults > old(k.faults)
    ensures Quiet(old(k.script)) && effect.Recorded? ==>
              if r.Ok? then Placed(old(k.disk), k.disk, destinationRoot, destinationParts, effect.target)
                            && Sha256(k.disk.inodes[effect.target.ino].node.content) == expected.sha256
              else Kept(old(k.disk), k.disk)
                   || (Placed(old(k.disk), k.disk, destinationRoot, destinationParts, effect.target)
                       && k.faults > effect.faults)
    ensures effect.Recorded? && r.Err? ==> old(k.faults) <= effect.faults <= k.faults
    ensures Quiet(old(k.script)) && r.Err? && k.faults == old(k.faults) ==> Kept(old(k.disk), k.disk)
    ensures Quiet(old(k.script)) && k.faults == old(k.faults) ==>
              (r.Ok? <==> AsBound(old(k.disk), sourceRoot, sourceParts, expected)
                          && Free(old(k.disk), destinationRoot, destinationParts))
    ensures Quiet(old(k.script)) && Occupied(old(k.disk), destinationRoot, destinationParts) ==> effect.Nothing?
    ensures Quiet(old(k.script)) ==>
              Touching(old(k.disk), k.trace, |old(k.trace)|, destinationRoot, destinationParts)
    ensures k.faults >= old(k.faults)
  {
    hide History, StatOf, Evolves, Good, Lookup, Placed, Free, Ready, AsBound, HasContent, Occupied, Copied,
         Touched;
    ghost var d0 := k.disk;
    InodesGrow(k.trace, k.trace);
    r, effect := Err, Nothing;
    source, s, d := RootHandle(0, 0), Stat(0, OtherFile, 0, 0, 0, 0), Stat(0, OtherFile, 0, 0, 0, 0);
    w := Checks(0, 0, 0, 0, 0, 0, 0, 0, 0, 0);
    var held := OpenBound(k, sourceRoot, sourceParts, expected);
    if held.None? { return; }
    source, s := held.value.handle, held.value.identity;
    ghost var t0 := k.trace;
    var c;
    c, effect := CreateFresh(k, destinationRoot, destinationParts);
    if c.Refused? && c.recorded.None? { return; }
    var t := if c.Fresh? then c.target else c.recorded.value;
    InodesGrow(t0, k.trace);
    if c.Fresh? {
      assert k.trace[|t0| - 1] == t0[|t0| - 1];
      ghost var t1 := k.trace;
      var ok;
      ok, d, w := CopyInto(k, sourceRoot, sourceParts, held.value, destinationRoot, destinationParts, t,
                           expected.sha256, expected.size, d0, |t0| - 1);
      if Quiet(old(k.script)) { TouchingJoins(d0, t1, k.trace, |old(k.trace)|, destinationRoot, destinationParts); }
      if ok {
        if Quiet(old(k.script)) { PlacedIsFree(d0, k.disk, destinationRoot, destinationParts, t, 0); }
        CopiedLater(k.trace, |t1| - 1, |old(k.trace)| - 1, sourceRoot, sourceParts, destinationRoot,
                    destinationParts, expected.sha256, expected.size, source, s, t.handle, d, w);
        return Ok(FileBinding(destinationParts, expected.sha256, expected.size)), effect, source, s, d, w;
      }
    }
    effect := Recorded(t, k.faults);
    ghost var t2 := k.trace;
    TakeBack(k, destinationRoot, destinationParts, t, d0);
    if Quiet(old(k.script)) { TouchingJoins(d0, t2, k.trace, |old(k.trace)|, destinationRoot, destinationParts); }
  }
}
