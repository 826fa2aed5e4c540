/** A directory tree as a map from relative paths, the root being the empty path. */
module Trees {
  import opened Text

  datatype Node = Directory | File(content: Bytes, links: nat) | Special

  type Tree = map<string, Node>

  function Child(p: string, n: string): string {
    if p == "" then n else Under(p, n)
  }

  function Offset(p: string): nat {
    if p == "" then 0 else |p| + 1
  }

  predicate IsChild(p: string, k: string) {
    && Offset(p) < |k|
    && (p != "" ==> StartsWith(k, p + "/"))
    && '/' !in k[Offset(p)..]
  }

  function NameIn(p: string, k: string): string
    requires IsChild(p, k)
  {
    k[Offset(p)..]
  }

  lemma ChildName(p: string, n: string)
    requires IsName(n)
    ensures IsChild(p, Child(p, n)) && NameIn(p, Child(p, n)) == n
  {
    if p != "" { UnderStarts(p, n); }
  }

  lemma NameChild(p: string, k: string)
    requires IsChild(p, k)
    ensures IsName(NameIn(p, k)) && Child(p, NameIn(p, k)) == k
    ensures |p| < |k|
  {
    if p != "" { assert k == k[..|p| + 1] + k[|p| + 1..]; }
  }

  /** `os.listdir` of a directory. */
  function Listing(tree: Tree, p: string): set<string> {
    set k | k in tree.Keys && IsChild(p, k) :: NameIn(p, k)
  }

  lemma ListingMember(tree: Tree, p: string, n: string)
    ensures n in Listing(tree, p) <==> IsName(n) && Child(p, n) in tree
  {
    if n in Listing(tree, p) {
      var k :| k in tree && IsChild(p, k) && NameIn(p, k) == n;
      NameChild(p, k);
    }
    if IsName(n) && Child(p, n) in tree { ChildName(p, n); }
  }

  ghost predicate HasParent(tree: Tree, k: string) {
    exists p :: p in tree && tree[p] == Directory && IsChild(p, k)
  }

  /** Every entry but the root lies in a directory of the tree. */
  ghost predicate WellFormed(tree: Tree) {
    && "" in tree && tree[""] == Directory
    && forall k :: k in tree && k != "" ==> HasParent(tree, k)
  }

  /** All directories below the root. */
  ghost function Directories(tree: Tree): set<string> {
    set k | k in tree.Keys && k != "" && tree[k] == Directory
  }

  ghost function Files(tree: Tree): set<string> {
    set k | k in tree.Keys && tree[k].File?
  }

  /** A set that holds the root and the subdirectories of its members holds every directory. */
  lemma {:induction false} ClosedHoldsAll(tree: Tree, closed: set<string>, k: string)
    requires WellFormed(tree)
    requires "" in closed
    requires forall p, c :: p in closed && p in tree && c in tree && IsChild(p, c) && tree[c] == Directory ==> c in closed
    requires k in tree && tree[k] == Directory
    ensures k in closed
    decreases |k|
  {
    if k != "" {
      var p :| p in tree && tree[p] == Directory && IsChild(p, k);
      NameChild(p, k);
      ClosedHoldsAll(tree, closed, p);
    }
  }

  // ---------------------------------------------------------------- the tree below a directory

  /** The path `r` of the tree below `p`; the empty path is `p` itself. */
  function Below(p: string, r: string): string {
    if r == "" then p else Under(p, r)
  }

  predicate IsBelow(p: string, k: string) {
    k == p || (|k| > |p| + 1 && StartsWith(k, p + "/"))
  }

  function Relative(p: string, k: string): string
    requires IsBelow(p, k)
  {
    if k == p then "" else k[|p| + 1..]
  }

  lemma RelativeBelow(p: string, k: string)
    requires IsBelow(p, k)
    ensures Below(p, Relative(p, k)) == k
  {
    if k != p { assert k == k[..|p| + 1] + k[|p| + 1..]; }
  }

  lemma BelowRelative(p: string, r: string)
    ensures IsBelow(p, Below(p, r)) && Relative(p, Below(p, r)) == r
  {
    if r != "" { UnderStarts(p, r); }
  }

  lemma BelowTwice(p: string, q: string, r: string)
    requires q != ""
    ensures Below(p, Below(q, r)) == Below(Under(p, q), r)
  {
  }

  /** The tree whose root is `p`. */
  function Subtree(tree: Tree, p: string): Tree {
    map r | r in (set k | k in tree.Keys && IsBelow(p, k) :: Relative(p, k)) && Below(p, r) in tree
      :: tree[Below(p, r)]
  }

  lemma SubtreeAt(tree: Tree, p: string, r: string)
    ensures r in Subtree(tree, p) <==> Below(p, r) in tree
    ensures r in Subtree(tree, p) ==> Subtree(tree, p)[r] == tree[Below(p, r)]
  {
    if Below(p, r) in tree { BelowRelative(p, r); }
  }

  lemma SubtreeTwice(tree: Tree, p: string, q: string)
    requires q != ""
    ensures Subtree(Subtree(tree, p), q) == Subtree(tree, Under(p, q))
  {
    var a, b := Subtree(Subtree(tree, p), q), Subtree(tree, Under(p, q));
    forall r ensures (r in a <==> r in b) && (r in a ==> a[r] == b[r]) {
      SubtreeAt(Subtree(tree, p), q, r);
      SubtreeAt(tree, p, Below(q, r));
      SubtreeAt(tree, Under(p, q), r);
      BelowTwice(p, q, r);
    }
  }

  predicate EndsInName(k: string) {
    k != "" ==> k[|k| - 1] != '/'
  }

  lemma KeyEndsInName(tree: Tree, k: string)
    requires WellFormed(tree) && k in tree
    ensures EndsInName(k)
  {
    if k != "" {
      var p :| p in tree && tree[p] == Directory && IsChild(p, k);
      assert k[Offset(p)..][|k| - 1 - Offset(p)] == k[|k| - 1];
    }
  }

  /** The directory of an entry that lies below `p` is `p` or lies below `p` too. */
  lemma ParentBelow(p: string, q: string, k: string)
    requires IsBelow(p, k) && k != p && IsChild(q, k) && p != "" && EndsInName(q)
    ensures q != "" && IsBelow(p, q)
    ensures IsChild(Relative(p, q), Relative(p, k))
  {
    SplitAt(p, k);
    assert forall i :: Offset(q) <= i < |k| ==> k[Offset(q)..][i - Offset(q)] == k[i];
    assert |p| < Offset(q);
    SplitAt(q, k);
    if q != p { StepBelow(p, q, k); }
  }

  lemma StepBelow(p: string, q: string, k: string)
    requires |p| < |q| < |k| && p != "" && q[|q| - 1] != '/'
    requires k[..|q|] == q && k[..|p|] == p && k[|p|] == '/' && k[|q|] == '/'
    requires |k| > |q| + 1 && '/' !in k[|q| + 1..]
    ensures IsBelow(p, q) && IsBelow(p, k) && IsChild(Relative(p, q), Relative(p, k))
  {
    assert q[|p|] == '/' && q[..|p|] == p;
    assert q[..|p| + 1] == p + "/" && k[..|p| + 1] == p + "/";
    var a, b := q[|p| + 1..], k[|p| + 1..];
    assert b[..|a|] == a && b[|a|] == '/';
    assert b[..|a| + 1] == a + "/";
    assert b[|a| + 1..] == k[|q| + 1..];
  }

  lemma SplitAt(p: string, k: string)
    requires |k| > |p| && StartsWith(k, p + "/")
    ensures k[|p|] == '/' && k[..|p|] == p
  {
    assert k[..|p| + 1][|p|] == '/';
    assert k[..|p|] == k[..|p| + 1][..|p|];
  }

  lemma SubtreeWellFormed(tree: Tree, p: string)
    requires WellFormed(tree) && p != "" && p in tree && tree[p] == Directory
    ensures WellFormed(Subtree(tree, p))
  {
    hide IsChild, IsBelow;
    var sub := Subtree(tree, p);
    SubtreeAt(tree, p, "");
    forall r | r in sub && r != "" ensures HasParent(sub, r) {
      SubtreeAt(tree, p, r);
      var k := Below(p, r);
      BelowRelative(p, r);
      var q :| q in tree && tree[q] == Directory && IsChild(q, k);
      KeyEndsInName(tree, q);
      ParentBelow(p, q, k);
      RelativeBelow(p, q);
      SubtreeAt(tree, p, Relative(p, q));
      assert Relative(p, q) in sub && IsChild(Relative(p, q), r);
    }
  }

  /** A path into the tree starts with an entry of its root directory. */
  lemma {:induction false} FirstStep(tree: Tree, p: string, k: string) returns (c: string)
    requires WellFormed(tree) && p in tree && k in tree && k != p
    requires p == "" || IsBelow(p, k)
    ensures c in tree && IsChild(p, c) && NameIn(p, c) in Listing(tree, p)
    ensures IsBelow(c, k) && (k != c ==> tree[c] == Directory)
    decreases |k|
  {
    hide WellFormed;
    assert k != "";
    var q := Parent(tree, k);
    NameChild(q, k);
    if q == p {
      c := k;
    } else {
      KeyEndsInName(tree, q);
      if p != "" { ParentBelow(p, q, k); }
      c := FirstStep(tree, p, q);
      BelowChild(c, q, k);
    }
  }

  lemma Parent(tree: Tree, k: string) returns (q: string)
    requires WellFormed(tree) && k in tree && k != ""
    ensures q in tree && tree[q] == Directory && IsChild(q, k)
  {
    q :| q in tree && tree[q] == Directory && IsChild(q, k);
  }

  lemma BelowChild(c: string, q: string, k: string)
    requires IsBelow(c, q) && IsChild(q, k) && q != ""
    ensures IsBelow(c, k)
  {
    SplitAt(q, k);
    if c != q {
      SplitAt(c, q);
      assert k[..|c| + 1] == q[..|c| + 1];
    }
  }
}
