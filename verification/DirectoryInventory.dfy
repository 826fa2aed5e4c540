/** The depth-first directory inventory: a stack of directories still to list. */
module DirectoryInventory {
  import opened Text
  import opened Trees

  const MAX_DIRECTORIES := 200_001

  /** An entry the traversal lets pass. */
  predicate SafeEntry(safe: string -> bool, tree: Tree, p: string, k: string)
    requires k in tree && IsChild(p, k)
  {
    && safe(NameIn(p, k))
    && |k| <= MAX_PATH_LENGTH
    && (tree[k] == Directory || (tree[k].File? && tree[k].links == 1))
  }

  ghost predicate SafeBelow(safe: string -> bool, tree: Tree, p: string) {
    forall k :: k in tree && IsChild(p, k) ==> SafeEntry(safe, tree, p, k)
  }

  /** Directories and unshared files only, safely named, within the bounds. */
  ghost predicate Acceptable(safe: string -> bool, tree: Tree) {
    && (forall p :: p in tree && tree[p] == Directory ==> SafeBelow(safe, tree, p))
    && |Directories(tree)| <= MAX_DIRECTORIES
  }

  /** `sorted(os.listdir(descriptor))`. */
  method SortedListing(tree: Tree, p: string) returns (names: seq<string>)
    ensures Ascending(names) && Elements(names) == Listing(tree, p)
  {
    var rest := Listing(tree, p);
    names := [];
    while rest != {}
      invariant rest <= Listing(tree, p)
      invariant Ascending(names) && Elements(names) == Listing(tree, p) - rest
      decreases |rest|
    {
      var n :| n in rest;
      InsertAscends(n, names);
      names := Insert(n, names);
      rest := rest - {n};
    }
  }

  /** What the traversal knows: `found` are the directories seen so far, `pending` those not listed
      yet and `listed` the others. */
  ghost predicate Progress(safe: string -> bool, tree: Tree, found: seq<string>,
                           pending: seq<string>, listed: set<string>) {
    && NoDuplicates(found) && NoDuplicates(pending)
    && Elements(found) <= Directories(tree)
    && "" !in found
    && listed !! Elements(pending)
    && Elements(found) + {""} == listed + Elements(pending)
    && (forall p :: p in listed ==> SafeBelow(safe, tree, p))
    && (forall p, c :: p in listed && c in tree && IsChild(p, c) && tree[c] == Directory ==> c in found)
    && (forall c :: c in found ==> exists p :: p in listed && IsChild(p, c))
  }

  /** The slash before the name of an entry is the last one in its path. */
  lemma NameOffset(p: string, k: string)
    requires IsChild(p, k)
    ensures p == k[..|p|]
    ensures Offset(p) > 0 ==> k[Offset(p) - 1] == '/'
    ensures forall i :: Offset(p) <= i < |k| ==> k[i] != '/'
  {
    assert forall i :: Offset(p) <= i < |k| ==> k[i] == k[Offset(p)..][i - Offset(p)];
    if p != "" { SplitAt(p, k); }
  }

  /** Two different directories have no entry in common. */
  lemma OneParent(p: string, q: string, k: string)
    requires IsChild(p, k) && IsChild(q, k)
    ensures p == q
  {
    hide IsChild;
    NameOffset(p, k);
    NameOffset(q, k);
    NameChild(p, k);
    NameChild(q, k);
    assert Offset(p) == Offset(q);
  }

  /** Lists one directory, appending its subdirectories to both lists. */
  method ListOne(safe: string -> bool, tree: Tree, p: string, found0: seq<string>, pending0: seq<string>)
    returns (ok: bool, found: seq<string>, pending: seq<string>)
    requires |found0| <= MAX_DIRECTORIES
    requires NoDuplicates(found0) && NoDuplicates(pending0)
    requires Elements(pending0) <= Elements(found0) + {""}
    requires Elements(found0) <= Directories(tree)
    requires forall c :: IsChild(p, c) ==> c !in found0
    ensures ok ==>
              && SafeBelow(safe, tree, p)
              && |found| <= MAX_DIRECTORIES
              && NoDuplicates(found) && NoDuplicates(pending)
              && Elements(found) <= Directories(tree)
              && (exists added ::
                    && found == found0 + added && pending == pending0 + added
                    && Elements(added) == set c | c in tree.Keys && IsChild(p, c) && tree[c] == Directory)
    ensures !ok ==> !SafeBelow(safe, tree, p) || |Directories(tree)| > MAX_DIRECTORIES
  {
    hide Ascending, IsChild, NoDuplicates;
    found, pending := found0, pending0;
    var names := SortedListing(tree, p);
    ghost var added: seq<string> := [];
    var i := 0;
    while i < |names|
      invariant i <= |names|
      invariant found == found0 + added && pending == pending0 + added
      invariant |found| <= MAX_DIRECTORIES
      invariant NoDuplicates(found) && NoDuplicates(pending)
      invariant Elements(found) <= Directories(tree)
      invariant forall c :: c in added ==> c in tree && tree[c] == Directory && exists j :: 0 <= j < i && c == Child(p, names[j])
      invariant forall j :: 0 <= j < i ==>
        && Child(p, names[j]) in tree && IsChild(p, Child(p, names[j]))
        && SafeEntry(safe, tree, p, Child(p, names[j]))
        && (tree[Child(p, names[j])] == Directory ==> Child(p, names[j]) in added)
    {
      var name := names[i];
      ListingMember(tree, p, name);
      ChildName(p, name);
      var relative := Child(p, name);
      assert NameIn(p, relative) == name;
      assert name in Elements(names);
      if !SafeEntry(safe, tree, p, relative) {
        return false, found, pending;
      }
      if tree[relative] == Directory {
        assert relative !in added by {
          if relative in added {
            var j :| 0 <= j < i && relative == Child(p, names[j]);
            SameName(p, names, j, i);
          }
        }
        AppendDistinct(found, relative);
        assert relative !in pending by {
          NameChild(p, relative);
          assert forall x :: x in pending0 ==> x in Elements(pending0);
        }
        AppendDistinct(pending, relative);
        found := found + [relative];
        added := added + [relative];
        if |found| > MAX_DIRECTORIES {
          DistinctSize(found);
          SubsetSize(Elements(found), Directories(tree));
          return false, found, pending;
        }
        pending := pending + [relative];
      }
      i := i + 1;
    }
    forall k | k in tree && IsChild(p, k)
      ensures SafeEntry(safe, tree, p, k) && (tree[k] == Directory ==> k in added)
    {
      NameChild(p, k);
      ListingMember(tree, p, NameIn(p, k));
      assert NameIn(p, k) in Elements(names);
    }
    assert Elements(added) == set c | c in tree.Keys && IsChild(p, c) && tree[c] == Directory;
    ok := true;
  }

  lemma SameName(p: string, names: seq<string>, i: int, j: int)
    requires Ascending(names) && 0 <= i < j < |names|
    requires IsName(names[i]) && IsName(names[j])
    ensures Child(p, names[i]) != Child(p, names[j])
  {
    ChildName(p, names[i]);
    ChildName(p, names[j]);
    LessAsymmetric(names[i], names[j]);
  }

  lemma AppendDistinct<T>(s: seq<T>, x: T)
    requires NoDuplicates(s) && x !in s
    ensures NoDuplicates(s + [x])
  {
  }

  lemma SubsetSize<T>(a: set<T>, b: set<T>)
    requires a <= b
    ensures |a| <= |b|
  {
    assert b == a + (b - a);
  }

  /** One turn of the stack: the popped directory becomes listed. */
  lemma ProgressStep(safe: string -> bool, tree: Tree, found: seq<string>, pending: seq<string>,
                     listed: set<string>, p: string, added: seq<string>)
    requires Progress(safe, tree, found, pending + [p], listed)
    requires SafeBelow(safe, tree, p)
    requires Elements(added) == set c | c in tree.Keys && IsChild(p, c) && tree[c] == Directory
    requires NoDuplicates(found + added) && NoDuplicates(pending + added)
    ensures Progress(safe, tree, found + added, pending + added, listed + {p})
  {
    hide SafeBelow, IsChild, NoDuplicates;
    StepSets(safe, tree, found, pending, listed, p, added);
    StepParents(safe, tree, found, pending, listed, p, added);
    assert forall c :: c in added <==> c in Elements(added);
    assert forall q, c ::
        q in listed + {p} && c in tree && IsChild(q, c) && tree[c] == Directory ==> c in found + added;
  }

  lemma StepParents(safe: string -> bool, tree: Tree, found: seq<string>, pending: seq<string>,
                    listed: set<string>, p: string, added: seq<string>)
    requires Progress(safe, tree, found, pending + [p], listed)
    requires Elements(added) == set c | c in tree.Keys && IsChild(p, c) && tree[c] == Directory
    ensures forall c :: c in found + added ==> exists q :: q in listed + {p} && IsChild(q, c)
  {
    hide SafeBelow, IsChild, NoDuplicates;
    forall c | c in found + added ensures exists q :: q in listed + {p} && IsChild(q, c) {
      if c in found {
        var q :| q in listed && IsChild(q, c);
        assert q in listed + {p};
      } else {
        assert c in Elements(added);
        assert p in listed + {p} && IsChild(p, c);
      }
    }
  }

  lemma StepSets(safe: string -> bool, tree: Tree, found: seq<string>, pending: seq<string>,
                 listed: set<string>, p: string, added: seq<string>)
    requires Progress(safe, tree, found, pending + [p], listed)
    requires Elements(added) == set c | c in tree.Keys && IsChild(p, c) && tree[c] == Directory
    requires NoDuplicates(found + added)
    ensures Elements(found + added) <= Directories(tree) && "" !in found + added
    ensures listed + {p} !! Elements(pending + added)
    ensures Elements(found + added) + {""} == listed + {p} + Elements(pending + added)
  {
    hide SafeBelow, IsChild;
    var all := pending + [p];
    assert p == all[|pending|] && p in Elements(all);
    assert p !in pending by { assert forall i :: 0 <= i < |pending| ==> all[i] == pending[i]; }
    assert Elements(found + added) == Elements(found) + Elements(added);
    assert Elements(pending + added) == Elements(pending) + Elements(added);
    assert Elements(all) == Elements(pending) + {p};
    forall c | c in added ensures c !in listed && c != p && c != "" && c in Directories(tree) {
      assert c in Elements(added);
      NewIsNew(found, added, c);
      NameChild(p, c);
    }
  }

  lemma NewIsNew(found: seq<string>, added: seq<string>, c: string)
    requires NoDuplicates(found + added) && c in added
    ensures c !in found
  {
    var s := found + added;
    var j :| 0 <= j < |added| && added[j] == c;
    assert s[|found| + j] == c;
    assert forall i :: 0 <= i < |found| ==> s[i] == found[i];
  }

  /** `_observe_directory_inventory` on a tree nobody changes: accepts exactly the acceptable
      trees, and returns the strictly sorted set of all their directories. */
  method ObserveDirectoryInventory(safe: string -> bool, tree: Tree) returns (r: Result<seq<string>>)
    requires WellFormed(tree)
    ensures r.Ok? <==> Acceptable(safe, tree)
    ensures r.Ok? ==> Ascending(r.value) && Elements(r.value) == Directories(tree)
  {
    hide SafeBelow, NoDuplicates, Sort, Progress, IsChild, Directories, WellFormed;
    var found: seq<string> := [];
    var pending := [""];
    ghost var listed: set<string> := {};
    StartProgress(safe, tree);
    while pending != []
      invariant Progress(safe, tree, found, pending, listed)
      invariant |found| <= MAX_DIRECTORIES
      invariant listed <= Directories(tree) + {""}
      decreases |Directories(tree) + {""} - listed|
    {
      var p := pending[|pending| - 1];
      assert pending == pending[..|pending| - 1] + [p];
      pending := pending[..|pending| - 1];
      PopFacts(safe, tree, found, pending, listed, p);
      ghost var found0, pending0 := found, pending;
      var ok;
      ok, found, pending := ListOne(safe, tree, p, found, pending);
      if !ok {
        return Err;
      }
      ghost var added :|
        && found == found0 + added && pending == pending0 + added
        && Elements(added) == set c | c in tree.Keys && IsChild(p, c) && tree[c] == Directory;
      ProgressStep(safe, tree, found0, pending0, listed, p, added);
      ShrinkSize(Directories(tree) + {""}, listed, p);
      listed := listed + {p};
    }
    Finished(safe, tree, found, listed);
    SortDistinct(found);
    return Ok(Sort(found));
  }

  lemma ShrinkSize<T>(all: set<T>, done: set<T>, x: T)
    requires x in all && x !in done
    ensures |all - (done + {x})| < |all - done|
  {
    assert all - done == (all - (done + {x})) + {x};
  }

  lemma StartProgress(safe: string -> bool, tree: Tree)
    ensures Progress(safe, tree, [], [""], {})
  {
    assert Elements([""]) == {""};
  }

  lemma PopFacts(safe: string -> bool, tree: Tree, found: seq<string>, pending: seq<string>,
                 listed: set<string>, p: string)
    requires WellFormed(tree) && Progress(safe, tree, found, pending + [p], listed)
    ensures NoDuplicates(found) && NoDuplicates(pending) && p !in listed
    ensures Elements(found) <= Directories(tree)
    ensures Elements(pending) <= Elements(found) + {""}
    ensures p in Directories(tree) + {""} && p in tree && tree[p] == Directory
    ensures forall c :: IsChild(p, c) ==> c !in found
  {
    hide SafeBelow;
    var all := pending + [p];
    assert all[|pending|] == p;
    assert p in Elements(all) && Elements(pending) <= Elements(all);
    assert forall i :: 0 <= i < |pending| ==> all[i] == pending[i];
    forall c | IsChild(p, c) ensures c !in found {
      if c in found {
        var q :| q in listed && IsChild(q, c);
        OneParent(p, q, c);
      }
    }
  }

  /** With nothing pending, every directory has been found and every entry has been checked. */
  lemma Finished(safe: string -> bool, tree: Tree, found: seq<string>, listed: set<string>)
    requires WellFormed(tree) && Progress(safe, tree, found, [], listed)
    requires |found| <= MAX_DIRECTORIES
    ensures NoDuplicates(found) && Elements(found) == Directories(tree)
    ensures Acceptable(safe, tree)
  {
    hide SafeBelow;
    assert listed == Elements(found) + {""};
    forall k | k in tree && tree[k] == Directory ensures k in listed {
      ClosedHoldsAll(tree, listed, k);
    }
    DistinctSize(found);
  }
}
