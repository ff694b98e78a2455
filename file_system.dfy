/** The part of the filesystem the processor touches, as a map from path to entry. */
module FileSystem {
  import opened Wrappers

  /** A path as its list of components; an entry of a directory extends the directory's path by one name. */
  type Path = seq<string>

  /** A directory, or a regular file of the given size in bytes. */
  datatype Node = Dir | File(size: nat)

  type Tree = map<Path, Node>

  /** `os.path.join(dir, name)`. */
  function Join(dir: Path, name: string): Path
  {
    dir + [name]
  }

  function Parent(p: Path): Path
    requires |p| > 0
  {
    p[..|p| - 1]
  }

  /** `p` is `dir` itself or lies somewhere below it. */
  predicate Under(p: Path, dir: Path)
  {
    |dir| <= |p| && p[..|dir|] == dir
  }

  /** Every entry other than the root sits in a directory that exists. */
  ghost predicate WellFormed(t: Tree)
  {
    forall dir, name :: Join(dir, name) in t ==> IsDir(t, dir)
  }

  predicate IsDir(t: Tree, p: Path)
  {
    p in t && t[p].Dir?
  }

  /** The check the processor makes on each file it expects: it exists and is not empty. */
  predicate NonEmptyFile(t: Tree, p: Path)
  {
    p in t && t[p].File? && t[p].size > 0
  }

  /** Nothing but `dir` itself lies under `dir`. */
  predicate EmptyDir(t: Tree, dir: Path)
  {
    forall p | p in t && Under(p, dir) :: p == dir
  }

  /** What an external tool leaves at `p`: a file of the given size, or nothing new. */
  function Written(t: Tree, p: Path, size: Option<nat>): Tree
  {
    if size.Some? then t[p := File(size.value)] else t
  }

  /** `shutil.rmtree(dir)` on a directory: it and everything below it disappear, nothing else changes. */
  function RemoveTree(t: Tree, dir: Path): (r: Tree)
    ensures forall p :: p in r <==> p in t && !Under(p, dir)
    ensures forall p :: p in r ==> r[p] == t[p]
  {
    map p | p in t && !Under(p, dir) :: t[p]
  }

  /**
   * The effect of `_cleanup_temp_files(dir)`: a directory is removed with its contents; a
   * missing path is left alone, and so is a file, on which `rmtree` raises an error that is
   * only logged.
   */
  function CleanedTree(t: Tree, dir: Path): (r: Tree)
    ensures forall p :: p in r ==> p in t && r[p] == t[p]
    ensures forall p :: p in t && !Under(p, dir) ==> p in r
    ensures IsDir(t, dir) ==> forall p :: p in t && Under(p, dir) ==> p !in r
    ensures !IsDir(t, dir) ==> r == t
  {
    if IsDir(t, dir) then RemoveTree(t, dir) else t
  }

  /**
   * The effect of `cleanup_file(p)`: a file is removed; a missing path is left alone, and so is
   * a directory, on which `os.remove` raises an error that is only logged.
   */
  function CleanedFile(t: Tree, p: Path): (r: Tree)
    ensures forall q :: q != p ==> (q in r <==> q in t) && (q in r ==> r[q] == t[q])
    ensures p in r <==> IsDir(t, p)
    ensures p in r ==> r[p] == t[p]
  {
    if p in t && t[p].File? then t - {p} else t
  }

  // ----- Properties -----

  /** An entry of `dir` lies directly below it, and different names give different entries. */
  lemma JoinFacts(dir: Path, a: string, b: string)
    ensures |Join(dir, a)| > 0 && Parent(Join(dir, a)) == dir
    ensures Under(Join(dir, a), dir) && Join(dir, a) != dir
    ensures Join(dir, a) == Join(dir, b) <==> a == b
  {
    assert Join(dir, a)[|dir|] == a && Join(dir, b)[|dir|] == b;
  }

  lemma {:induction false} AncestorPresent(t: Tree, d: Path, p: Path)
    requires WellFormed(t) && p in t && Under(p, d)
    ensures d in t
    decreases |p|
  {
    if |p| > |d| {
      assert p == Join(Parent(p), p[|p| - 1]);
      assert Parent(p)[..|d|] == p[..|d|];
      AncestorPresent(t, d, Parent(p));
    } else {
      assert p == p[..|d|];
    }
  }

  /** In a well-formed tree nothing lies below a path that does not exist. */
  lemma AbsentHasNothingUnder(t: Tree, d: Path)
    requires WellFormed(t) && d !in t
    ensures forall p :: p in t ==> !Under(p, d)
  {
    forall p | p in t && Under(p, d) ensures false {
      AncestorPresent(t, d, p);
    }
  }

  /** Writing into an existing directory, over anything but a directory, keeps the tree well formed. */
  lemma PutWellFormed(t: Tree, dir: Path, name: string, node: Node)
    requires WellFormed(t) && IsDir(t, dir) && !IsDir(t, Join(dir, name))
    requires node.Dir? ==> Join(dir, name) !in t
    ensures WellFormed(t[Join(dir, name) := node])
  {
    var u := t[Join(dir, name) := node];
    forall d, n | Join(d, n) in u ensures IsDir(u, d) {
      if Join(d, n) != Join(dir, name) {
        assert IsDir(t, d);
        assert d != Join(dir, name);
      } else {
        assert d == dir by { assert Join(d, n)[..|d|] == d; assert Join(dir, name)[..|dir|] == dir; }
      }
    }
  }

  lemma WrittenWellFormed(t: Tree, dir: Path, name: string, size: Option<nat>)
    requires WellFormed(t) && IsDir(t, dir) && !IsDir(t, Join(dir, name))
    ensures WellFormed(Written(t, Join(dir, name), size))
  {
    if size.Some? {
      PutWellFormed(t, dir, name, File(size.value));
    }
  }

  /** Both cleanups keep the tree well formed. */
  lemma CleanupsWellFormed(t: Tree, p: Path)
    requires WellFormed(t)
    ensures WellFormed(CleanedTree(t, p)) && WellFormed(CleanedFile(t, p))
  {
    if IsDir(t, p) {
      var r := RemoveTree(t, p);
      assert WellFormed(r);
    }
  }

  /** Removing a file keeps the tree well formed, since no entry lies in a file. */
  lemma RemoveFileWellFormed(t: Tree, p: Path)
    requires WellFormed(t) && p in t && t[p].File?
    ensures WellFormed(t - {p})
  {
  }

  /** Cleaning a directory or a file a second time changes nothing: both cleanups are idempotent. */
  lemma CleanupsIdempotent(t: Tree, p: Path)
    ensures CleanedTree(CleanedTree(t, p), p) == CleanedTree(t, p)
    ensures CleanedFile(CleanedFile(t, p), p) == CleanedFile(t, p)
  {
    if IsDir(t, p) {
      assert p !in RemoveTree(t, p);
    }
  }

  /** `u` differs from `t` only at or below `d`. */
  ghost predicate AgreesOutside(t: Tree, u: Tree, d: Path)
  {
    forall p | !Under(p, d) :: (p in t <==> p in u) && (p in t ==> t[p] == u[p])
  }

  /** Writing at or below `d` keeps a tree in agreement outside `d`. */
  lemma PutAgrees(t: Tree, u: Tree, d: Path, p: Path, node: Node)
    requires AgreesOutside(t, u, d) && Under(p, d)
    ensures AgreesOutside(t, u[p := node], d)
  {
  }

  lemma AgreesTransitive(t: Tree, u: Tree, v: Tree, d: Path)
    requires AgreesOutside(t, u, d) && AgreesOutside(u, v, d)
    ensures AgreesOutside(t, v, d)
  {
  }

  lemma WrittenAgrees(t: Tree, u: Tree, d: Path, p: Path, size: Option<nat>)
    requires AgreesOutside(t, u, d) && Under(p, d)
    ensures AgreesOutside(t, Written(u, p, size), d)
  {
    if size.Some? {
      PutAgrees(t, u, d, p, File(size.value));
    }
  }

  /**
   * Removing the tree below `d` undoes any number of writes below `d`, provided nothing lay
   * below `d` before.
   */
  lemma RemoveTreeRestores(t: Tree, u: Tree, d: Path)
    requires forall p :: p in t ==> !Under(p, d)
    requires AgreesOutside(t, u, d)
    ensures RemoveTree(u, d) == t
  {
  }

  /** Two trees that agree outside `d` and hold nothing at or below it are equal. */
  lemma ClearedRestores(t: Tree, u: Tree, d: Path)
    requires forall p :: p in t ==> !Under(p, d)
    requires forall p :: p in u ==> !Under(p, d)
    requires AgreesOutside(t, u, d)
    ensures u == t
  {
  }

  /**
   * A directory `d` made fresh in a well-formed tree, holding one file `name` of size `n`:
   * removing that file leaves `d` in place and empty, and the rest of the tree as it was.
   */
  lemma CleanupAfterSuccessKeepsDir(t: Tree, d: Path, name: string, n: nat)
    requires WellFormed(t) && d !in t
    ensures var out := Join(d, name);
      CleanedFile(t[d := Dir][out := File(n)], out) == t[d := Dir]
    ensures var r := CleanedFile(t[d := Dir][Join(d, name) := File(n)], Join(d, name));
      IsDir(r, d) && EmptyDir(r, d)
  {
    var out := Join(d, name);
    AbsentHasNothingUnder(t, d);
    JoinFacts(d, name, name);
    assert t[d := Dir][out := File(n)] - {out} == t[d := Dir];
  }
}
