/** A file system shared with an environment that may rewrite anything between two system calls,
    under one assumption: every change to a file gives it a stat identity never used before. */
module FileSystem {
  import opened Text

  type Ino = nat

  datatype Node =
    | Regular(content: Bytes, links: nat, mode: nat)
    | Folder(entries: map<string, Ino>, mode: nat)
    | Special  // a link, junction or device, which no call here opens

  /** `stamp` stands for the modification and change times. */
  datatype Inode = Inode(node: Node, stamp: nat)

  datatype Disk = Disk(inodes: map<Ino, Inode>, roots: map<string, Ino>, clock: nat)

  datatype Kind = RegularFile | DirectoryFile | OtherFile

  /** The tuple `_stat_identity` compares. */
  datatype Stat = Stat(ino: Ino, kind: Kind, mode: nat, links: nat, size: nat, stamp: nat)

  function StatOf(d: Disk, i: Ino): Stat
    requires i in d.inodes
  {
    var inode := d.inodes[i];
    match inode.node
    case Regular(content, links, mode) => Stat(i, RegularFile, mode, links, |content|, inode.stamp)
    case Folder(_, mode) => Stat(i, DirectoryFile, mode, 1, 0, inode.stamp)
    case Special => Stat(i, OtherFile, 0, 1, 0, inode.stamp)
  }

  /** Gives inode `i` new contents and a fresh stamp. */
  function Touch(d: Disk, i: Ino, node: Node): Disk {
    Disk(d.inodes[i := Inode(node, d.clock)], d.roots, d.clock + 1)
  }

  function Lookup(d: Disk, dir: Ino, name: string): (r: Option<Ino>)
    ensures r.Some? ==> r.value in d.inodes
  {
    if dir in d.inodes && d.inodes[dir].node.Folder? && name in d.inodes[dir].node.entries
       && d.inodes[dir].node.entries[name] in d.inodes
    then Some(d.inodes[dir].node.entries[name])
    else None
  }

  // ---------------------------------------------------------------- history

  ghost predicate Good(d: Disk) {
    forall i :: i in d.inodes ==> i < d.clock && d.inodes[i].stamp < d.clock
  }

  /** What can happen to a disk: inodes stay, and a changed one carries a stamp of its own. */
  ghost predicate Evolves(a: Disk, b: Disk) {
    && a.clock <= b.clock
    && forall i :: i in a.inodes ==>
         i in b.inodes && (b.inodes[i] == a.inodes[i] || a.clock <= b.inodes[i].stamp)
  }

  ghost predicate History(trace: seq<Disk>) {
    && (forall i :: 0 <= i < |trace| ==> Good(trace[i]))
    && (forall i, j :: 0 <= i <= j < |trace| ==> Evolves(trace[i], trace[j]))
  }

  lemma EvolvesTransitive(a: Disk, b: Disk, c: Disk)
    requires Evolves(a, b) && Evolves(b, c)
    ensures Evolves(a, c)
  {
  }

  lemma HistoryGrows(trace: seq<Disk>, d: Disk)
    requires trace != [] && History(trace) && Good(d) && Evolves(trace[|trace| - 1], d)
    ensures History(trace + [d])
  {
    var t := trace + [d];
    forall i, j | 0 <= i <= j < |t| ensures Evolves(t[i], t[j]) {
      if j == |trace| && i < j {
        EvolvesTransitive(trace[i], trace[|trace| - 1], d);
      }
    }
  }

  /** The heart of every optimistic read: equal stat identities at two instants mean that the file
      did not change at any instant between them. */
  lemma SameIdentityPins(trace: seq<Disk>, lo: nat, mid: nat, hi: nat, i: Ino)
    requires History(trace) && lo <= mid <= hi < |trace|
    requires i in trace[lo].inodes && i in trace[hi].inodes
    requires StatOf(trace[lo], i) == StatOf(trace[hi], i)
    ensures i in trace[mid].inodes && trace[mid].inodes[i] == trace[lo].inodes[i] == trace[hi].inodes[i]
  {
    assert Evolves(trace[lo], trace[mid]) && Evolves(trace[mid], trace[hi]);
    assert Evolves(trace[lo], trace[hi]) && Good(trace[lo]) && Good(trace[mid]);
  }

  lemma TouchEvolves(d: Disk, i: Ino, node: Node)
    requires Good(d) && (i in d.inodes || i == d.clock)
    ensures Good(Touch(d, i, node)) && Evolves(d, Touch(d, i, node))
  {
  }

  // ---------------------------------------------------------------- the environment

  /** Anything at all may be done to an existing inode, a new one may appear, and a root path may
      come to name another directory. */
  datatype Move = Rewrite(ino: Ino, node: Node) | Appear(node: Node) | Mount(root: string, ino: Ino)

  /** The environment's part in one system call: what it does before the call, whether the call
      fails, and how far a read or write gets. */
  datatype Turn = Turn(moves: seq<Move>, fault: bool, amount: nat)

  function Moved(d: Disk, m: Move): Disk {
    match m
    case Rewrite(i, node) => if i in d.inodes then Touch(d, i, node) else d
    case Appear(node) => Touch(d, d.clock, node)
    case Mount(root, i) => d.(roots := d.roots[root := i])
  }

  lemma MovedEvolves(d: Disk, m: Move)
    requires Good(d)
    ensures Good(Moved(d, m)) && Evolves(d, Moved(d, m))
  {
    match m
    case Rewrite(i, node) => if i in d.inodes { TouchEvolves(d, i, node); }
    case Appear(node) => TouchEvolves(d, d.clock, node);
    case Mount(_, _) =>
  }

  ghost predicate Quiet(script: seq<Turn>) {
    forall t :: t in script ==> t.moves == []
  }

  /** Without an outside writer a call that only reads changes nothing, not even for an instant. */
  ghost predicate Calm(script: seq<Turn>, d: Disk, trace: seq<Disk>,
                       script': seq<Turn>, d': Disk, trace': seq<Disk>) {
    Quiet(script) ==> Quiet(script') && d' == d && trace' == trace
  }

  function Least(a: nat, b: nat): nat {
    if a < b then a else b
  }

  /** `write` at an offset; a gap is filled with zeros. */
  function Spliced(content: Bytes, offset: nat, data: Bytes): Bytes {
    if data == [] then content
    else if |content| < offset then content + seq(offset - |content|, _ => 0) + data
    else content[..offset] + data
         + (if offset + |data| < |content| then content[offset + |data|..] else [])
  }

  // ---------------------------------------------------------------- system calls

  datatype Probe = Found(stat: Stat) | Missing | Failed

  class Kernel {
    var disk: Disk
    var script: seq<Turn>
    ghost var trace: seq<Disk>  // every state so far, the current one last
    ghost var faults: nat       // how many calls the environment made fail

    ghost predicate Valid()
      reads this
    {
      trace != [] && trace[|trace| - 1] == disk && History(trace)
    }

    /** Replaces the disk by a later one. */
    method Advance(d: Disk)
      requires Valid() && Good(d) && Evolves(disk, d)
      modifies this`disk, this`trace
      ensures Valid() && disk == d && trace == old(trace) + [d]
    {
      HistoryGrows(trace, d);
      trace := trace + [d];
      disk := d;
    }

    /** Lets the environment take its turn before a call; once the script is used up, calls work in full. */
    method Tick() returns (fault: bool, limit: Option<nat>)
      requires Valid()
      modifies this
      ensures Valid() && old(trace) <= trace
      ensures Calm(old(script), old(disk), old(trace), script, disk, trace)
      ensures faults == old(faults) + if fault then 1 else 0
      ensures Evolves(old(disk), disk)
    {
      ghost var start := |trace| - 1;
      if script == [] {
        return false, None;
      }
      var turn := script[0];
      script := script[1..];
      var i := 0;
      while i < |turn.moves|
        invariant Valid() && old(trace) <= trace
        invariant turn.moves == [] ==> disk == old(disk) && trace == old(trace)
        invariant script == old(script)[1..] && faults == old(faults)
      {
        MovedEvolves(disk, turn.moves[i]);
        Advance(Moved(disk, turn.moves[i]));
        i := i + 1;
      }
      assert trace[start] == old(disk);
      if turn.fault { faults := faults + 1; }
      return turn.fault, Some(turn.amount);
    }

    /** `path.lstat()` of a root. */
    method StatRoot(root: string) returns (r: Option<Stat>)
      requires Valid()
      modifies this
      ensures Valid() && old(trace) <= trace
      ensures Calm(old(script), old(disk), old(trace), script, disk, trace)
      ensures r.Some? ==> root in disk.roots && disk.roots[root] in disk.inodes
                          && r.value == StatOf(disk, disk.roots[root])
      ensures r.None? ==> faults > old(faults) || root !in disk.roots || disk.roots[root] !in disk.inodes
      ensures faults >= old(faults)
    {
      var fault, _ := Tick();
      if fault || root !in disk.roots || disk.roots[root] !in disk.inodes { return None; }
      return Some(StatOf(disk, disk.roots[root]));
    }

    /** `os.open(root, O_DIRECTORY | O_NOFOLLOW)`. */
    method OpenRootPath(root: string) returns (r: Option<Ino>)
      requires Valid()
      modifies this
      ensures Valid() && old(trace) <= trace
      ensures Calm(old(script), old(disk), old(trace), script, disk, trace)
      ensures r.Some? ==> root in disk.roots && r.value == disk.roots[root] && r.value in disk.inodes
      ensures r.None? ==> faults > old(faults) || root !in disk.roots || disk.roots[root] !in disk.inodes
                          || !disk.inodes[disk.roots[root]].node.Folder?
      ensures faults >= old(faults)
    {
      var fault, _ := Tick();
      if fault || root !in disk.roots || disk.roots[root] !in disk.inodes
         || !disk.inodes[disk.roots[root]].node.Folder? {
        return None;
      }
      return Some(disk.roots[root]);
    }

    /** `os.stat(name, dir_fd=dir, follow_symlinks=False)`. */
    method StatAt(dir: Ino, name: string) returns (r: Option<Stat>)
      requires Valid()
      modifies this
      ensures Valid() && old(trace) <= trace
      ensures Calm(old(script), old(disk), old(trace), script, disk, trace)
      ensures r.Some? ==> Lookup(disk, dir, name) == Some(r.value.ino) && r.value.ino in disk.inodes
                          && r.value == StatOf(disk, r.value.ino)
      ensures r.None? ==> faults > old(faults) || Lookup(disk, dir, name).None?
      ensures faults >= old(faults)
    {
      var fault, _ := Tick();
      var found := Lookup(disk, dir, name);
      if fault || found.None? { return None; }
      return Some(StatOf(disk, found.value));
    }

    /** The same call where the caller tells a missing entry from a failure. */
    method ProbeAt(dir: Ino, name: string) returns (r: Probe)
      requires Valid()
      modifies this
      ensures Valid() && old(trace) <= trace
      ensures Calm(old(script), old(disk), old(trace), script, disk, trace)
      ensures r.Found? ==> Lookup(disk, dir, name) == Some(r.stat.ino)
      ensures r.Missing? ==> Lookup(disk, dir, name).None?
      ensures r.Failed? ==> faults > old(faults)
      ensures faults >= old(faults)
    {
      var fault, _ := Tick();
      var found := Lookup(disk, dir, name);
      if fault { return Failed; }
      if found.None? { return Missing; }
      return Found(StatOf(disk, found.value));
    }

    /** `os.open(name, O_RDONLY | O_NOFOLLOW, dir_fd=dir)`. */
    method OpenAt(dir: Ino, name: string) returns (r: Option<Ino>)
      requires Valid()
      modifies this
      ensures Valid() && old(trace) <= trace
      ensures Calm(old(script), old(disk), old(trace), script, disk, trace)
      ensures r.Some? ==> r == Lookup(disk, dir, name) && r.value in disk.inodes
                          && !disk.inodes[r.value].node.Special?
      ensures r.None? ==> faults > old(faults) || Lookup(disk, dir, name).None?
                          || disk.inodes[Lookup(disk, dir, name).value].node.Special?
      ensures faults >= old(faults)
    {
      var fault, _ := Tick();
      r := Lookup(disk, dir, name);
      if fault || r.None? || disk.inodes[r.value].node.Special? { return None; }
    }

    /** `os.open(name, O_DIRECTORY | O_NOFOLLOW, dir_fd=dir)`. */
    method OpenDirectoryAt(dir: Ino, name: string) returns (r: Option<Ino>)
      requires Valid()
      modifies this
      ensures Valid() && old(trace) <= trace
      ensures Calm(old(script), old(disk), old(trace), script, disk, trace)
      ensures r.Some? ==> r == Lookup(disk, dir, name) && r.value in disk.inodes
                          && disk.inodes[r.value].node.Folder?
      ensures r.None? ==> faults > old(faults) || Lookup(disk, dir, name).None?
                          || !disk.inodes[Lookup(disk, dir, name).value].node.Folder?
      ensures faults >= old(faults)
    {
      var fault, _ := Tick();
      r := Lookup(disk, dir, name);
      if fault || r.None? || !disk.inodes[r.value].node.Folder? { return None; }
    }

    /** `os.fstat` of an open file, whose inode cannot go away. */
    method Fstat(i: Ino) returns (r: Option<Stat>)
      requires Valid() && i in disk.inodes
      modifies this
      ensures Valid() && old(trace) <= trace && i in disk.inodes
      ensures Calm(old(script), old(disk), old(trace), script, disk, trace)
      ensures r.Some? ==> r.value == StatOf(disk, i)
      ensures r.None? ==> faults > old(faults)
      ensures faults >= old(faults)
    {
      var fault, _ := Tick();
      if fault { return None; }
      return Some(StatOf(disk, i));
    }

    /** `os.read`: at least one byte unless the file ends here, but maybe fewer than asked for. */
    method Read(i: Ino, offset: nat, count: nat) returns (r: Option<Bytes>)
      requires Valid() && i in disk.inodes && count > 0
      modifies this
      ensures Valid() && old(trace) <= trace && i in disk.inodes
      ensures Calm(old(script), old(disk), old(trace), script, disk, trace)
      ensures r.Some? ==> disk.inodes[i].node.Regular?
      ensures r.Some? && r.value == [] ==> |disk.inodes[i].node.content| <= offset
      ensures r.Some? && r.value != [] ==>
                && offset + |r.value| <= |disk.inodes[i].node.content|
                && |r.value| <= count
                && r.value == disk.inodes[i].node.content[offset..offset + |r.value|]
      ensures r.None? ==> faults > old(faults) || !disk.inodes[i].node.Regular?
      ensures faults >= old(faults)
    {
      var fault, limit := Tick();
      if fault || !disk.inodes[i].node.Regular? { return None; }
      var content := disk.inodes[i].node.content;
      if |content| <= offset { return Some([]); }
      var n := Least(count, |content| - offset);
      if limit.Some? { n := Least(n, if limit.value == 0 then 1 else limit.value); }
      return Some(content[offset..offset + n]);
    }

    /** `os.write`: maybe fewer bytes than given; a write that makes no progress counts as failed. */
    method Write(i: Ino, offset: nat, data: Bytes) returns (r: Option<nat>)
      requires Valid() && i in disk.inodes
      modifies this
      ensures Valid() && old(trace) <= trace && i in disk.inodes
      ensures r.Some? ==> r.value <= |data|
      ensures Quiet(old(script)) ==> Quiet(script)
      ensures Quiet(old(script)) && old(disk).inodes[i].node.Regular? ==>
                var node := old(disk).inodes[i].node;
                if r.Some?
                then && disk == Touch(old(disk), i, node.(content := Spliced(node.content, offset, data[..r.value])))
                     && trace == old(trace) + [disk]
                else disk == old(disk) && trace == old(trace)
      ensures Quiet(old(script)) && old(disk).inodes[i].node.Regular? && data != [] && r.None? ==> faults > old(faults)
      ensures r == Some(0) && data != [] ==> faults > old(faults)
      ensures faults >= old(faults)
    {
      var fault, limit := Tick();
      if fault || !disk.inodes[i].node.Regular? { return None; }
      var n := if limit.None? then |data| else Least(|data|, limit.value);
      if n == 0 && data != [] { faults := faults + 1; }
      var node := disk.inodes[i].node;
      TouchEvolves(disk, i, node.(content := Spliced(node.content, offset, data[..n])));
      Advance(Touch(disk, i, node.(content := Spliced(node.content, offset, data[..n]))));
      return Some(n);
    }

    /** A call that may fail and otherwise does nothing the model can see (`fsync`, `lseek`). */
    method Settle() returns (ok: bool)
      requires Valid()
      modifies this
      ensures Valid() && old(trace) <= trace
      ensures Calm(old(script), old(disk), old(trace), script, disk, trace)
      ensures !ok ==> faults > old(faults)
      ensures faults >= old(faults) && Evolves(old(disk), disk)
    {
      var fault, _ := Tick();
      ok := !fault;
    }

    /** `os.fchmod` of a file. */
    method Chmod(i: Ino, mode: nat) returns (ok: bool)
      requires Valid() && i in disk.inodes
      modifies this
      ensures Valid() && old(trace) <= trace && i in disk.inodes
      ensures Quiet(old(script)) ==> Quiet(script)
      ensures Quiet(old(script)) && old(disk).inodes[i].node.Regular? ==>
                if ok
                then disk == Touch(old(disk), i, WithMode(old(disk).inodes[i].node, mode)) && trace == old(trace) + [disk]
                else disk == old(disk) && trace == old(trace)
      ensures Quiet(old(script)) && old(disk).inodes[i].node.Regular? && !ok ==> faults > old(faults)
      ensures faults >= old(faults)
    {
      var fault, _ := Tick();
      if fault || !disk.inodes[i].node.Regular? { return false; }
      TouchEvolves(disk, i, WithMode(disk.inodes[i].node, mode));
      Advance(Touch(disk, i, WithMode(disk.inodes[i].node, mode)));
      ok := true;
    }

    /** `os.open(name, O_RDWR | O_CREAT | O_EXCL | O_NOFOLLOW, mode, dir_fd=dir)`. */
    method CreateAt(dir: Ino, name: string, mode: nat) returns (r: Option<Ino>)
      requires Valid()
      modifies this
      ensures Valid() && old(trace) <= trace
      ensures r.Some? ==> r.value in disk.inodes
      ensures r.Some? ==> r.value !in old(disk).inodes
      ensures Quiet(old(script)) ==> Quiet(script)
      ensures Quiet(old(script)) ==>
                if r.Some?
                then CanCreate(old(disk), dir, name) && r.value == old(disk).clock
                     && disk == Created(old(disk), dir, name, mode) && trace == old(trace) + [disk]
                else disk == old(disk) && trace == old(trace)
      ensures Quiet(old(script)) && r.None? ==> faults > old(faults) || !CanCreate(old(disk), dir, name)
      ensures faults >= old(faults)
    {
      var fault, _ := Tick();
      if fault || !CanCreate(disk, dir, name) { return None; }
      var i := disk.clock;
      TouchEvolves(disk, i, Regular([], 1, mode));
      var d := Touch(disk, i, Regular([], 1, mode));
      var folder := d.inodes[dir].node;
      TouchEvolves(d, dir, folder.(entries := folder.entries[name := i]));
      EvolvesTransitive(disk, d, Touch(d, dir, folder.(entries := folder.entries[name := i])));
      Advance(Created(disk, dir, name, mode));
      return Some(i);
    }

    /** `os.unlink(name, dir_fd=dir)`. */
    method UnlinkAt(dir: Ino, name: string) returns (ok: bool)
      requires Valid()
      modifies this
      ensures Valid() && old(trace) <= trace
      ensures Quiet(old(script)) ==> Quiet(script)
      ensures Quiet(old(script)) ==>
                if ok
                then CanUnlink(old(disk), dir, name) && disk == Unlinked(old(disk), dir, name)
                     && trace == old(trace) + [disk]
                else disk == old(disk) && trace == old(trace)
      ensures Quiet(old(script)) && !ok ==> faults > old(faults) || !CanUnlink(old(disk), dir, name)
      ensures faults >= old(faults)
    {
      var fault, _ := Tick();
      if fault || !CanUnlink(disk, dir, name) { return false; }
      var i := Lookup(disk, dir, name).value;
      var node := disk.inodes[i].node;
      TouchEvolves(disk, i, Dropped(node));
      var d := Touch(disk, i, Dropped(node));
      var folder := d.inodes[dir].node;
      TouchEvolves(d, dir, folder.(entries := folder.entries - {name}));
      EvolvesTransitive(disk, d, Touch(d, dir, folder.(entries := folder.entries - {name})));
      Advance(Unlinked(disk, dir, name));
      ok := true;
    }
  }

  function WithMode(node: Node, mode: nat): Node
    requires node.Regular?
  {
    Regular(node.content, node.links, mode)
  }

  predicate CanCreate(d: Disk, dir: Ino, name: string) {
    dir in d.inodes && d.inodes[dir].node.Folder? && dir != d.clock && name !in d.inodes[dir].node.entries
  }

  function Created(d: Disk, dir: Ino, name: string, mode: nat): Disk
    requires CanCreate(d, dir, name)
  {
    var e := Touch(d, d.clock, Regular([], 1, mode));
    var folder := e.inodes[dir].node;
    Touch(e, dir, folder.(entries := folder.entries[name := d.clock]))
  }

  function Dropped(node: Node): Node
    requires node.Regular?
  {
    node.(links := if node.links == 0 then 0 else node.links - 1)
  }

  predicate CanUnlink(d: Disk, dir: Ino, name: string) {
    && Lookup(d, dir, name).Some?
    && d.inodes[Lookup(d, dir, name).value].node.Regular?
  }

  function Unlinked(d: Disk, dir: Ino, name: string): Disk
    requires CanUnlink(d, dir, name)
  {
    var i := Lookup(d, dir, name).value;
    var e := Touch(d, i, Dropped(d.inodes[i].node));
    var folder := e.inodes[dir].node;
    Touch(e, dir, folder.(entries := folder.entries - {name}))
  }
}
