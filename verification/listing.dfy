/**
 The file listing built after extraction: a top-down `os.walk` over the
 extracted tree, turning each walked file into a name relative to the
 extraction root.

 Two listings are defined. `FileListAsWritten` follows the source line by
 line, including the reassignment of the walk's `root` inside the file loop,
 which strips one more separator for every further file of a directory that
 is two or more levels deep; the pipeline writes this listing. `FileList`
 computes each directory's relative path once, the behaviour the loop
 evidently intends.
 */
module Listing {
  import opened Text

  /** A directory of the extracted archive: its files and subdirectories, in the order the walk lists them. */
  datatype Tree = Tree(files: seq<string>, dirs: seq<Subdir>)
  datatype Subdir = Subdir(name: string, tree: Tree)

  /** One `(root, _, files)` triple yielded by `os.walk`. */
  datatype WalkStep = WalkStep(root: string, files: seq<string>)

  /** Every name in the tree is a proper path component. */
  ghost predicate ValidTree(t: Tree)
    decreases t
  {
    && (forall k :: 0 <= k < |t.files| ==> IsName(t.files[k]))
    && (forall k :: 0 <= k < |t.dirs| ==> IsName(t.dirs[k].name) && ValidTree(t.dirs[k].tree))
  }

  /** An extraction root: non-empty and not ending in a separator. */
  predicate ValidRoot(u: string) {
    |u| > 0 && u[|u| - 1] != '/'
  }

  /**
   `os.walk(top)` top-down: the directory itself, then each subdirectory's
   walk in order, each rooted at `os.path.join(top, name)`.
   */
  function Walk(top: string, t: Tree): (steps: seq<WalkStep>)
    ensures |steps| >= 1 && steps[0] == WalkStep(top, t.files)
    decreases t, |t.dirs| + 1
  {
    [WalkStep(top, t.files)] + WalkDirs(top, t, 0)
  }

  function WalkDirs(top: string, t: Tree, i: nat): seq<WalkStep>
    decreases t, |t.dirs| - i
  {
    if i >= |t.dirs| then []
    else Walk(PathJoin(top, t.dirs[i].name), t.dirs[i].tree) + WalkDirs(top, t, i + 1)
  }

  /** Number of files in a sequence of walk steps. */
  function FileCount(steps: seq<WalkStep>): nat
    decreases |steps|
  {
    if steps == [] then 0 else |steps[0].files| + FileCount(steps[1..])
  }

  // ---------------------------------------------------------------------
  // The listing as written

  /** The expression assigned to `root` inside the file loop. */
  function StripRoot(unpacked: string, root: string): string
    requires |unpacked| > 0
  {
    ReplaceFirst(Replace(root, unpacked, ""), "/", "")
  }

  /** The inner loop: `root` is reassigned before every file. */
  function ListDirAsWritten(unpacked: string, root: string, files: seq<string>): (names: seq<string>)
    requires |unpacked| > 0
    ensures |names| == |files|
    decreases |files|
  {
    if files == [] then []
    else
      var root' := StripRoot(unpacked, root);
      [PathJoin(root', files[0])] + ListDirAsWritten(unpacked, root', files[1..])
  }

  function ListAsWritten(unpacked: string, steps: seq<WalkStep>): (names: seq<string>)
    requires |unpacked| > 0
    ensures |names| == FileCount(steps)
    decreases |steps|
  {
    if steps == [] then []
    else ListDirAsWritten(unpacked, steps[0].root, steps[0].files) + ListAsWritten(unpacked, steps[1..])
  }

  /** The source's listing of the tree extracted at `unpacked`: one name for every file the walk visits. */
  function FileListAsWritten(unpacked: string, t: Tree): (names: seq<string>)
    requires |unpacked| > 0
    ensures |names| == FileCount(Walk(unpacked, t))
  {
    ListAsWritten(unpacked, Walk(unpacked, t))
  }

  // ---------------------------------------------------------------------
  // The corrected listing

  /** A walked root's path relative to the extraction root `unpacked`. */
  function RelativeRoot(unpacked: string, root: string): string {
    if root == unpacked then ""
    else if |root| > |unpacked| && root[..|unpacked| + 1] == unpacked + "/" then root[|unpacked| + 1..]
    else root
  }

  function ListDir(rel: string, files: seq<string>): (names: seq<string>)
    ensures |names| == |files|
  {
    seq(|files|, k requires 0 <= k < |files| => PathJoin(rel, files[k]))
  }

  function List(unpacked: string, steps: seq<WalkStep>): (names: seq<string>)
    ensures |names| == FileCount(steps)
    decreases |steps|
  {
    if steps == [] then []
    else ListDir(RelativeRoot(unpacked, steps[0].root), steps[0].files) + List(unpacked, steps[1..])
  }

  /** The listing with each directory's relative path computed once. */
  function FileList(unpacked: string, t: Tree): seq<string> {
    List(unpacked, Walk(unpacked, t))
  }

  // ---------------------------------------------------------------------
  // Reference: every member's path relative to the extraction root

  /**
   The paths of the tree's files, in walk order, each relative to the
   directory whose relative path is `prefix`.
   */
  function Members(prefix: string, t: Tree): seq<string>
    decreases t, |t.dirs| + 1
  {
    ListDir(prefix, t.files) + MembersDirs(prefix, t, 0)
  }

  function MembersDirs(prefix: string, t: Tree, i: nat): seq<string>
    decreases t, |t.dirs| - i
  {
    if i >= |t.dirs| then []
    else Members(PathJoin(prefix, t.dirs[i].name), t.dirs[i].tree) + MembersDirs(prefix, t, i + 1)
  }

  // ---------------------------------------------------------------------
  // Properties

  lemma {:induction false} ListAppend(unpacked: string, a: seq<WalkStep>, b: seq<WalkStep>)
    ensures List(unpacked, a + b) == List(unpacked, a) + List(unpacked, b)
    decreases |a|
  {
    if a == [] {
      assert a + b == b;
    } else {
      assert (a + b)[1..] == a[1..] + b;
      ListAppend(unpacked, a[1..], b);
    }
  }

  /** `top` is the walked directory whose path relative to `unpacked` is `prefix`. */
  predicate Rooted(unpacked: string, top: string, prefix: string) {
    || (prefix == "" && top == unpacked)
    || (prefix != "" && top == unpacked + "/" + prefix)
  }

  /**
   The corrected listing names every file of the walked subtree by its path
   relative to the extraction root.
   */
  lemma {:induction false} ListWalk(unpacked: string, top: string, prefix: string, t: Tree)
    requires ValidRoot(unpacked) && ValidTree(t) && Rooted(unpacked, top, prefix)
    ensures List(unpacked, Walk(top, t)) == Members(prefix, t)
    decreases t, |t.dirs| + 1
  {
    var first := [WalkStep(top, t.files)];
    ListAppend(unpacked, first, WalkDirs(top, t, 0));
    assert first[1..] == [];
    assert RelativeRoot(unpacked, top) == prefix by {
      if prefix != "" {
        assert top[..|unpacked| + 1] == unpacked + "/";
        assert top[|unpacked| + 1..] == prefix;
      }
    }
    assert List(unpacked, first) == ListDir(prefix, t.files) + [];
    ListWalkDirs(unpacked, top, prefix, t, 0);
  }

  lemma {:induction false} ListWalkDirs(unpacked: string, top: string, prefix: string, t: Tree, i: nat)
    requires ValidRoot(unpacked) && ValidTree(t) && Rooted(unpacked, top, prefix)
    ensures List(unpacked, WalkDirs(top, t, i)) == MembersDirs(prefix, t, i)
    decreases t, |t.dirs| - i
  {
    if i < |t.dirs| {
      var d := t.dirs[i];
      var top' := PathJoin(top, d.name);
      var prefix' := PathJoin(prefix, d.name);
      RootedChild(unpacked, top, prefix, d.name);
      assert WalkDirs(top, t, i) == Walk(top', d.tree) + WalkDirs(top, t, i + 1);
      assert MembersDirs(prefix, t, i) == Members(prefix', d.tree) + MembersDirs(prefix, t, i + 1);
      ListAppend(unpacked, Walk(top', d.tree), WalkDirs(top, t, i + 1));
      ListWalk(unpacked, top', prefix', d.tree);
      ListWalkDirs(unpacked, top, prefix, t, i + 1);
    }
  }

  /** A subdirectory of a rooted directory is rooted at the joined paths. */
  lemma RootedChild(unpacked: string, top: string, prefix: string, name: string)
    requires ValidRoot(unpacked) && Rooted(unpacked, top, prefix) && IsName(name)
    ensures Rooted(unpacked, PathJoin(top, name), PathJoin(prefix, name))
  {
    assert name[0] in name;
    if prefix != "" {
      JoinBelow(unpacked, prefix, name);
    }
  }

  /** Joining onto `u/prefix` is joining onto `prefix`, below `u`. */
  lemma JoinBelow(u: string, prefix: string, n: string)
    requires prefix != "" && |n| > 0 && n[0] != '/'
    ensures PathJoin(u + "/" + prefix, n) == u + "/" + PathJoin(prefix, n)
  {
    var top := u + "/" + prefix;
    assert top[|top| - 1] == prefix[|prefix| - 1];
  }

  /** The corrected listing of an extracted tree is exactly its member paths. */
  lemma FileListIsMembers(unpacked: string, t: Tree)
    requires ValidRoot(unpacked) && ValidTree(t)
    ensures FileList(unpacked, t) == Members("", t)
  {
    ListWalk(unpacked, unpacked, "", t);
  }

  // ---------------------------------------------------------------------
  // The listing as written, compared with the corrected one

  /** `str(DOWNLOADS_DIR / id)`: a valid root with a separator past its first character. */
  ghost predicate ExtractionRoot(u: string) {
    ValidRoot(u) && exists k :: 0 < k < |u| && u[k] == '/'
  }

  /** Once the stripped root is a fixpoint of the strip, every file of the directory is named under it. */
  lemma {:induction false} StableRoot(unpacked: string, root: string, rel: string, files: seq<string>)
    requires |unpacked| > 0
    requires StripRoot(unpacked, root) == rel && StripRoot(unpacked, rel) == rel
    ensures ListDirAsWritten(unpacked, root, files) == ListDir(rel, files)
    decreases |files|
  {
    if files != [] {
      StableRoot(unpacked, rel, rel, files[1..]);
      ListDirCons(rel, files);
    }
  }

  /** The corrected inner loop, one file at a time. */
  lemma ListDirCons(rel: string, files: seq<string>)
    requires files != []
    ensures ListDir(rel, files) == [PathJoin(rel, files[0])] + ListDir(rel, files[1..])
  {
    var tail := ListDir(rel, files[1..]);
    assert forall k :: 1 <= k < |files| ==> ListDir(rel, files)[k] == tail[k - 1];
  }

  /** At the extraction root itself, the corrected inner loop keeps the bare names. */
  lemma ListDirAtRoot(files: seq<string>)
    ensures ListDir("", files) == files
  {
    forall k | 0 <= k < |files|
      ensures ListDir("", files)[k] == files[k]
    {
      assert "" + files[k] == files[k];
    }
  }

  /** A file directly under the extraction root is listed by its bare name. */
  lemma TopLevelBareNames(unpacked: string, files: seq<string>)
    requires |unpacked| > 0
    ensures ListDirAsWritten(unpacked, unpacked, files) == files
  {
    assert Replace(unpacked, unpacked, "") == "" by {
      assert unpacked[..|unpacked|] == unpacked;
      assert unpacked[|unpacked|..] == "";
    }
    StableRoot(unpacked, unpacked, "", files);
    ListDirAtRoot(files);
  }

  /** Replacing the extraction root in `root/n` leaves `/n`. */
  lemma ReplaceRootPrefix(unpacked: string, n: string)
    requires ExtractionRoot(unpacked) && IsName(n)
    ensures Replace(unpacked + "/" + n, unpacked, "") == "/" + n
  {
    var root := unpacked + "/" + n;
    var k :| 0 < k < |unpacked| && unpacked[k] == '/';
    assert root[..|unpacked|] == unpacked;
    assert root[|unpacked|..] == "/" + n;
    SlashNameAvoids(n, unpacked, k);
  }

  /** The strip turns `root/n` into `n`, and leaves `n` as it is. */
  lemma StripSubdirRoot(unpacked: string, n: string)
    requires ExtractionRoot(unpacked) && IsName(n)
    ensures StripRoot(unpacked, unpacked + "/" + n) == n
    ensures StripRoot(unpacked, n) == n
  {
    ReplaceRootPrefix(unpacked, n);
    assert ("/" + n)[..1] == "/";
    assert ("/" + n)[1..] == n;
    NameAvoids(n, unpacked);
    NameAvoids(n, "/");
  }

  /**
   In a subdirectory one level below the extraction root every file, the
   first included, is listed as `subdir/name`.
   */
  lemma SubdirNames(unpacked: string, n: string, files: seq<string>)
    requires ExtractionRoot(unpacked) && IsName(n)
    ensures ListDirAsWritten(unpacked, unpacked + "/" + n, files) == ListDir(n, files)
    ensures forall k :: 0 <= k < |files| && IsName(files[k]) ==>
      ListDirAsWritten(unpacked, unpacked + "/" + n, files)[k] == n + "/" + files[k]
  {
    StripSubdirRoot(unpacked, n);
    StableRoot(unpacked, unpacked + "/" + n, n, files);
  }

  /**
   At any depth, the first file listed for a directory is named by the
   directory's path relative to the extraction root, as long as the
   extraction root does not occur again in that relative path.
   */
  lemma FirstFileRelative(unpacked: string, prefix: string, files: seq<string>)
    requires |unpacked| > 0 && !Contains("/" + prefix, unpacked) && files != []
    ensures ListDirAsWritten(unpacked, unpacked + "/" + prefix, files)[0] == PathJoin(prefix, files[0])
  {
    var root := unpacked + "/" + prefix;
    var slashed := "/" + prefix;
    assert root[..|unpacked|] == unpacked;
    ReplaceAt(root, unpacked, "", 0);
    assert root[|unpacked|..] == slashed;
    assert Replace(root, unpacked, "") == slashed;
    assert slashed[..1] == "/";
    ReplaceFirstAt(slashed, "/", "", 0);
    assert slashed[1..] == prefix;
    assert StripRoot(unpacked, root) == prefix;
  }

  /** A walked root at depth at most one below the extraction root. */
  predicate ShallowRoot(unpacked: string, root: string) {
    || root == unpacked
    || (|root| > |unpacked| + 1 && root[..|unpacked| + 1] == unpacked + "/" && IsName(root[|unpacked| + 1..]))
  }

  lemma {:induction false} ShallowStepsAgree(unpacked: string, steps: seq<WalkStep>)
    requires ExtractionRoot(unpacked)
    requires forall j :: 0 <= j < |steps| ==> ShallowRoot(unpacked, steps[j].root)
    ensures ListAsWritten(unpacked, steps) == List(unpacked, steps)
    decreases |steps|
  {
    if steps != [] {
      var st := steps[0];
      assert ShallowRoot(unpacked, st.root);
      if st.root == unpacked {
        TopLevelBareNames(unpacked, st.files);
        ListDirAtRoot(st.files);
      } else {
        var n := st.root[|unpacked| + 1..];
        assert st.root == unpacked + "/" + n;
        assert RelativeRoot(unpacked, st.root) == n;
        SubdirNames(unpacked, n, st.files);
      }
      ShallowStepsAgree(unpacked, steps[1..]);
    }
  }

  /** No directory of the tree lies more than one level below its root. */
  predicate Shallow(t: Tree) {
    forall k :: 0 <= k < |t.dirs| ==> t.dirs[k].tree.dirs == []
  }

  lemma {:induction false} ShallowWalkDirs(unpacked: string, t: Tree, i: nat)
    requires ValidRoot(unpacked) && ValidTree(t) && Shallow(t)
    ensures forall j :: 0 <= j < |WalkDirs(unpacked, t, i)| ==> ShallowRoot(unpacked, WalkDirs(unpacked, t, i)[j].root)
    decreases |t.dirs| - i
  {
    if i < |t.dirs| {
      var d := t.dirs[i];
      var top := PathJoin(unpacked, d.name);
      assert top == unpacked + "/" + d.name;
      assert top[..|unpacked| + 1] == unpacked + "/";
      assert top[|unpacked| + 1..] == d.name;
      assert WalkDirs(top, d.tree, 0) == [];
      assert Walk(top, d.tree) == [WalkStep(top, d.tree.files)];
      ShallowWalkDirs(unpacked, t, i + 1);
    }
  }

  /**
   For trees no deeper than one subdirectory level, the listing as written
   and the corrected listing agree.
   */
  lemma ShallowListingsAgree(unpacked: string, t: Tree)
    requires ExtractionRoot(unpacked) && ValidTree(t) && Shallow(t)
    ensures FileListAsWritten(unpacked, t) == FileList(unpacked, t)
  {
    var steps := Walk(unpacked, t);
    ShallowWalkDirs(unpacked, t, 0);
    assert steps == [WalkStep(unpacked, t.files)] + WalkDirs(unpacked, t, 0);
    forall j | 0 <= j < |steps|
      ensures ShallowRoot(unpacked, steps[j].root)
    {
      if j > 0 {
        assert steps[j] == WalkDirs(unpacked, t, 0)[j - 1];
      }
    }
    ShallowStepsAgree(unpacked, steps);
  }

  /** The listing as written keeps one name per walked file, whatever it does to the names. */
  lemma ListingsSameLength(unpacked: string, t: Tree)
    requires |unpacked| > 0
    ensures |FileListAsWritten(unpacked, t)| == |FileList(unpacked, t)|
  {
  }

  /** `a/b` holding `x` then `y`: the smallest tree on which the two listings differ. */
  function NestedExample(): Tree {
    Tree([], [Subdir("a", Tree([], [Subdir("b", Tree(["x", "y"], []))]))])
  }

  lemma NestedExampleWalk()
    ensures Walk("d/i", NestedExample()) == [WalkStep("d/i", []), WalkStep("d/i/a", []), WalkStep("d/i/a/b", ["x", "y"])]
  {
    var leaf := Tree(["x", "y"], []);
    var mid := Tree([], [Subdir("b", leaf)]);
    assert PathJoin("d/i", "a") == "d/i/a";
    assert PathJoin("d/i/a", "b") == "d/i/a/b";
    assert WalkDirs("d/i/a/b", leaf, 0) == [];
    var leafSteps := [WalkStep("d/i/a/b", ["x", "y"])];
    assert Walk("d/i/a/b", leaf) == leafSteps;
    assert WalkDirs("d/i/a", mid, 1) == [];
    assert WalkDirs("d/i/a", mid, 0) == leafSteps + [];
    var midSteps := [WalkStep("d/i/a", [])] + leafSteps;
    assert Walk("d/i/a", mid) == midSteps;
    assert WalkDirs("d/i", NestedExample(), 1) == [];
    assert WalkDirs("d/i", NestedExample(), 0) == midSteps + [];
  }

  lemma NestedExampleFirstStrip()
    ensures StripRoot("d/i", "d/i/a/b") == "a/b"
  {
    var u := "d/i";
    assert "d/i/a/b"[..3] == u;
    assert "d/i/a/b"[3..] == "/a/b";
    assert "/a/b"[..3][0] != u[0];
    assert "/a/b"[1..] == "a/b";
    assert "a/b"[..3][0] != u[0];
    assert "a/b"[1..] == "/b";
    assert Replace("/a/b", u, "") == "/a/b";
    assert Replace("d/i/a/b", u, "") == "/a/b";
    assert "/a/b"[..1] == "/";
  }

  lemma NestedExampleSecondStrip()
    ensures StripRoot("d/i", "a/b") == "ab"
  {
    var u := "d/i";
    assert "a/b"[..3][0] != u[0];
    assert "a/b"[1..] == "/b";
    assert Replace("a/b", u, "") == "a/b";
    assert "a/b"[..1] != "/";
    assert "/b"[..1] == "/";
    assert "/b"[1..] == "b";
    assert ReplaceFirst("/b", "/", "") == "b";
  }

  lemma NestedExampleSecondFile()
    ensures ListDirAsWritten("d/i", "a/b", ["y"]) == ["ab/y"]
  {
    NestedExampleSecondStrip();
    assert ["y"][1..] == [];
    assert ListDirAsWritten("d/i", "a/b", ["y"]) == [PathJoin("ab", "y")] + ListDirAsWritten("d/i", "ab", []);
    assert PathJoin("ab", "y") == "ab/y";
  }

  lemma NestedExampleLeafAsWritten()
    ensures ListDirAsWritten("d/i", "d/i/a/b", ["x", "y"]) == ["a/b/x", "ab/y"]
  {
    NestedExampleFirstStrip();
    NestedExampleSecondFile();
    assert ["x", "y"][1..] == ["y"];
    assert ListDirAsWritten("d/i", "d/i/a/b", ["x", "y"]) == [PathJoin("a/b", "x")] + ListDirAsWritten("d/i", "a/b", ["y"]);
    assert PathJoin("a/b", "x") == "a/b/x";
  }

  lemma NestedExampleAsWritten()
    ensures FileListAsWritten("d/i", NestedExample()) == ["a/b/x", "ab/y"]
  {
    var u := "d/i";
    NestedExampleWalk();
    NestedExampleLeafAsWritten();
    var tail := [WalkStep("d/i/a/b", ["x", "y"])];
    var mid := [WalkStep("d/i/a", [])] + tail;
    var steps := [WalkStep(u, [])] + mid;
    assert tail[1..] == [];
    assert ListAsWritten(u, tail) == ["a/b/x", "ab/y"];
    assert mid[1..] == tail;
    assert ListAsWritten(u, mid) == ["a/b/x", "ab/y"];
    assert steps[1..] == mid;
    assert ListAsWritten(u, steps) == ["a/b/x", "ab/y"];
  }

  lemma NestedExampleCorrected()
    ensures FileList("d/i", NestedExample()) == ["a/b/x", "a/b/y"]
  {
    var u := "d/i";
    var steps := [WalkStep(u, []), WalkStep("d/i/a", []), WalkStep("d/i/a/b", ["x", "y"])];
    NestedExampleWalk();
    assert RelativeRoot(u, "d/i/a/b") == "a/b" by {
      assert "d/i/a/b"[..4] == "d/i/";
      assert "d/i/a/b"[4..] == "a/b";
    }
    assert PathJoin("a/b", "x") == "a/b/x";
    assert PathJoin("a/b", "y") == "a/b/y";
    var names := ListDir("a/b", ["x", "y"]);
    assert names[0] == "a/b/x" && names[1] == "a/b/y";
    assert names == ["a/b/x", "a/b/y"];
    assert steps[1..] == [WalkStep("d/i/a", []), WalkStep("d/i/a/b", ["x", "y"])];
    assert steps[1..][1..] == [WalkStep("d/i/a/b", ["x", "y"])];
  }

  /** The member paths of the example tree: both files under `a/b`. */
  lemma NestedExampleMembers()
    ensures Members("", NestedExample()) == ["a/b/x", "a/b/y"]
  {
    var leaf := Tree(["x", "y"], []);
    assert IsName("x") && IsName("y") && IsName("a") && IsName("b");
    assert ValidTree(leaf);
    assert ValidTree(Tree([], [Subdir("b", leaf)]));
    assert ValidTree(NestedExample());
    assert ExtractionRoot("d/i") by {
      assert "d/i"[1] == '/';
    }
    FileListIsMembers("d/i", NestedExample());
    NestedExampleCorrected();
  }

  /**
   The defect of the listing as written: in `a/b` holding `x` then `y`, the
   second file loses the separator between `a` and `b`, where the corrected
   listing names both files under `a/b`.
   */
  lemma NestedSecondFileLosesSlash()
    ensures FileListAsWritten("d/i", NestedExample()) != FileList("d/i", NestedExample())
    ensures FileListAsWritten("d/i", NestedExample())[1] == "ab/y"
    ensures FileList("d/i", NestedExample())[1] == "a/b/y"
  {
    NestedExampleAsWritten();
    NestedExampleCorrected();
    assert "ab/y"[1] != "a/b/y"[1];
  }
}
