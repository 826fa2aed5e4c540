/** The collision check on delivery paths: an incremental dictionary loop, against a statement
    about all registered path prefixes at once. */
module PortablePaths {
  import opened Text
  import opened Names

  datatype Kind = File | Directory

  /** A path prefix with the kind of thing it names. */
  datatype Prefix = Prefix(text: string, kind: Kind)

  // ---------------------------------------------------------------- PurePosixPath.parts

  /** Components between slashes; empty ones and `.` are dropped. */
  function Parts(path: string): seq<string>
    decreases |path|
  {
    if '/' in path then
      var i := IndexOf(path, '/');
      Component(path[..i]) + Parts(path[i + 1..])
    else Component(path)
  }

  function Component(name: string): seq<string> {
    if name == "" || name == "." then [] else [name]
  }

  function Join(parts: seq<string>): string {
    if parts == [] then ""
    else if |parts| == 1 then parts[0]
    else Join(parts[..|parts| - 1]) + "/" + parts[|parts| - 1]
  }

  // ---------------------------------------------------------------- what the check means

  function PrefixAt(path: string, leaf: Kind, i: nat): Prefix
    requires i < |Parts(path)|
  {
    Prefix(Join(Parts(path)[..i + 1]), if i == |Parts(path)| - 1 then leaf else Directory)
  }

  function PrefixesOf(path: string, leaf: Kind): set<Prefix> {
    set i: nat | i < |Parts(path)| :: PrefixAt(path, leaf, i)
  }

  function PrefixesIn(list: seq<string>, leaf: Kind): set<Prefix> {
    set f, p | f in list && p in PrefixesOf(f, leaf) :: p
  }

  /** Every prefix of every directory path and file path. */
  function Registered(paths: seq<string>, directories: seq<string>): set<Prefix> {
    PrefixesIn(directories, Directory) + PrefixesIn(paths, File)
  }

  lemma PrefixesInNext(list: seq<string>, leaf: Kind, i: nat)
    requires i < |list|
    ensures PrefixesIn(list[..i + 1], leaf) == PrefixesIn(list[..i], leaf) + PrefixesOf(list[i], leaf)
    ensures PrefixesIn(list[..i + 1], leaf) <= PrefixesIn(list, leaf)
  {
    hide PrefixesOf;
    assert list[..i + 1] == list[..i] + [list[i]];
    assert list[i] in list[..i + 1];
  }

  predicate PortableText(t: Tables, path: string) {
    |path| <= MAX_PATH_LENGTH && t.normalize(path) == Some(path) && t.nfc(path) == path
  }

  /** Equal keys mean equal spelling and equal kind. */
  predicate NoCollision(t: Tables, prefixes: set<Prefix>) {
    forall p, q :: p in prefixes && q in prefixes && Key(t, p.text) == Key(t, q.text) ==> p == q
  }

  predicate Portable(t: Tables, paths: seq<string>, directories: seq<string>) {
    && (forall p :: p in directories ==> PortableText(t, p))
    && (forall p :: p in paths ==> PortableText(t, p))
    && NoCollision(t, Registered(paths, directories))
  }

  // ---------------------------------------------------------------- the loop

  type Seen = map<string, Prefix>

  /** The dictionary holds each registered prefix under its own key. */
  ghost predicate Records(t: Tables, seen: Seen, prefixes: set<Prefix>) {
    && (forall p :: p in prefixes ==> Key(t, p.text) in seen && seen[Key(t, p.text)] == p)
    && (forall k :: k in seen ==> seen[k] in prefixes && Key(t, seen[k].text) == k)
  }

  /** A prefix whose key is taken by another prefix ruins every set that holds both. */
  lemma Clash(t: Tables, seen: Seen, prefixes: set<Prefix>, p: Prefix, all: set<Prefix>)
    requires Records(t, seen, prefixes) && prefixes <= all && p in all
    requires Key(t, p.text) in seen && seen[Key(t, p.text)] != p
    ensures !NoCollision(t, all)
  {
    var q := seen[Key(t, p.text)];
    assert q in all && Key(t, q.text) == Key(t, p.text);
  }

  lemma RecordsNext(t: Tables, seen: Seen, prefixes: set<Prefix>, p: Prefix)
    requires Records(t, seen, prefixes)
    requires Key(t, p.text) in seen ==> seen[Key(t, p.text)] == p
    ensures Records(t, seen[Key(t, p.text) := p], prefixes + {p})
  {
  }

  /** The nested function `register`. */
  method Register(t: Tables, seen0: Seen, ghost prefixes: set<Prefix>, path: string, leaf: Kind)
    returns (ok: bool, seen: Seen)
    requires Records(t, seen0, prefixes)
    ensures ok ==> PortableText(t, path) && Records(t, seen, prefixes + PrefixesOf(path, leaf))
    ensures !ok ==> !PortableText(t, path) || !NoCollision(t, prefixes + PrefixesOf(path, leaf))
  {
    hide Key, Join, Parts, Records, NoCollision, PortableText, PrefixAt;
    seen := seen0;
    if !PortableText(t, path) {
      return false, seen;
    }
    var parts := Parts(path);
    ghost var all := prefixes + PrefixesOf(path, leaf);
    ghost var done := prefixes;
    var i := 0;
    while i < |parts|
      invariant i <= |parts|
      invariant done == prefixes + set j: nat | j < i :: PrefixAt(path, leaf, j)
      invariant Records(t, seen, done)
    {
      var p := PrefixAt(path, leaf, i);
      var key := Key(t, p.text);
      if key in seen && seen[key] != p {
        assert p in all && done <= all;
        Clash(t, seen, done, p, all);
        return false, seen;
      }
      RecordsNext(t, seen, done, p);
      seen := seen[key := p];
      done := done + {p};
      i := i + 1;
    }
    assert done == all;
    return true, seen;
  }

  lemma CollisionGrows(t: Tables, some: set<Prefix>, all: set<Prefix>)
    requires some <= all && !NoCollision(t, some)
    ensures !NoCollision(t, all)
  {
  }

  lemma RecordsHaveNoCollision(t: Tables, seen: Seen, prefixes: set<Prefix>)
    requires Records(t, seen, prefixes)
    ensures NoCollision(t, prefixes)
  {
  }

  lemma NoPrefixes(leaf: Kind)
    ensures PrefixesIn([], leaf) == {}
  {
  }

  /** `register` applied to each element of one list. */
  method RegisterAll(t: Tables, seen0: Seen, ghost prefixes: set<Prefix>, list: seq<string>, leaf: Kind)
    returns (ok: bool, seen: Seen)
    requires Records(t, seen0, prefixes)
    ensures ok ==>
              && (forall p :: p in list ==> PortableText(t, p))
              && Records(t, seen, prefixes + PrefixesIn(list, leaf))
    ensures !ok ==>
              || (exists p :: p in list && !PortableText(t, p))
              || !NoCollision(t, prefixes + PrefixesIn(list, leaf))
  {
    hide PrefixesIn, PrefixesOf, PortableText, Records, NoCollision;
    seen := seen0;
    ghost var all := prefixes + PrefixesIn(list, leaf);
    ghost var done := prefixes;
    assert done == prefixes + PrefixesIn(list[..0], leaf) by { NoPrefixes(leaf); }
    var i := 0;
    while i < |list|
      invariant i <= |list|
      invariant done == prefixes + PrefixesIn(list[..i], leaf)
      invariant Records(t, seen, done)
      invariant forall j :: 0 <= j < i ==> PortableText(t, list[j])
    {
      ok, seen := Register(t, seen, done, list[i], leaf);
      PrefixesInNext(list, leaf, i);
      if !ok {
        if PortableText(t, list[i]) {
          assert done + PrefixesOf(list[i], leaf) <= all;
          CollisionGrows(t, done + PrefixesOf(list[i], leaf), all);
        }
        return;
      }
      done := done + PrefixesOf(list[i], leaf);
      i := i + 1;
    }
    assert list[..i] == list;
    ok := true;
  }

  /** `_require_portable_paths`: accepts exactly the portable inputs. */
  method RequirePortablePaths(t: Tables, paths: seq<string>, directories: seq<string>)
    returns (ok: bool)
    ensures ok <==> Portable(t, paths, directories)
  {
    hide Key, PrefixesIn, PortableText, Records, NoCollision;
    ghost var fromDirectories := PrefixesIn(directories, Directory);
    EmptyRecords(t);
    var seen: Seen;
    ok, seen := RegisterAll(t, map[], {}, directories, Directory);
    assert {} + fromDirectories == fromDirectories;
    if !ok {
      if !NoCollision(t, fromDirectories) {
        CollisionGrows(t, fromDirectories, Registered(paths, directories));
      }
      return;
    }
    ok, seen := RegisterAll(t, seen, fromDirectories, paths, File);
    if ok {
      RecordsHaveNoCollision(t, seen, Registered(paths, directories));
    }
  }

  lemma EmptyRecords(t: Tables)
    ensures Records(t, map[], {})
  {
  }

  // ---------------------------------------------------------------- consequences

  /** The answer does not depend on the order of the inputs, nor on repetitions. */
  lemma PortableIgnoresOrder(t: Tables, paths: seq<string>, directories: seq<string>,
                             paths': seq<string>, directories': seq<string>)
    requires Elements(paths) == Elements(paths') && Elements(directories) == Elements(directories')
    ensures Portable(t, paths, directories) <==> Portable(t, paths', directories')
  {
    hide NoCollision, PortableText, PrefixesOf;
    assert forall p :: p in paths <==> p in Elements(paths);
    assert forall p :: p in paths' <==> p in Elements(paths');
    assert forall p :: p in directories <==> p in Elements(directories);
    assert forall p :: p in directories' <==> p in Elements(directories');
    assert Registered(paths, directories) == Registered(paths', directories');
  }

  /** In an accepted input no file is also a directory, not even up to folding. */
  lemma NoFileIsADirectory(t: Tables, paths: seq<string>, directories: seq<string>, f: string, p: Prefix)
    requires Portable(t, paths, directories)
    requires f in paths && Parts(f) != []
    requires p in Registered(paths, directories) && p.kind == Directory
    ensures Key(t, p.text) != Key(t, Join(Parts(f)))
  {
    hide Key;
    var n := |Parts(f)|;
    var leaf := PrefixAt(f, File, n - 1);
    assert Parts(f)[..n] == Parts(f);
    assert leaf in PrefixesOf(f, File);
    assert leaf in PrefixesIn(paths, File);
  }
}
