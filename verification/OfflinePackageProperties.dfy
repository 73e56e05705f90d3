/** What an import promises about the store: digests, repetition, order, and export undone by import. */
module OfflinePackageProperties {
  import opened Common
  import opened Text
  import opened OfflinePackageStore

  // ---------------------------------------------------------------- declared digests

  /** Entries whose names mean the same path declare the same digest. */
  ghost predicate SameDigests(es: seq<Entry>) {
    forall i, j :: 0 <= i < |es| && 0 <= j < |es| && es[i].path == es[j].path ==> es[i].sha256 == es[j].sha256
  }

  predicate Holds(t: Tree, e: Entry, hash: Content -> string) {
    e.path in t.files && e.sha256 == Some(hash(t.files[e.path]))
  }

  ghost predicate HoldsAll(t: Tree, es: seq<Entry>, hash: Content -> string) {
    forall i :: 0 <= i < |es| ==> Holds(t, es[i], hash)
  }

  /** After an import every declared path is there, with the declared digest of the entry that decided it. */
  lemma InstalledDigest(t: Tree, es: seq<Entry>, hash: Content -> string, i: nat) returns (j: nat)
    requires Verified(es, hash) && NoConflict(t, es, hash) && i < |es|
    ensures j < |es| && es[j].path == es[i].path && Holds(Installed(t, es), es[j], hash)
    ensures es[i].path in t.files ==> j == i
  {
    var p := es[i].path;
    InstalledFiles(t, es, |es|, p);
    assert EntryOk(es[i], hash) && TargetOk(t, es[i], hash);
    if p in t.files {
      j := i;
    } else {
      j := StagedLast(es, |es|, p);
      assert EntryOk(es[j], hash);
    }
  }

  /**
     After a successful import every declared path holds content with its declared
     digest exactly when no two names of the manifest mean the same path with
     different digests.
  */
  lemma DeclaredDigests(t: Tree, es: seq<Entry>, hash: Content -> string)
    requires Verified(es, hash) && NoConflict(t, es, hash)
    ensures HoldsAll(Installed(t, es), es, hash) <==> SameDigests(es)
  {
    var after := Installed(t, es);
    if SameDigests(es) {
      forall i | 0 <= i < |es| ensures Holds(after, es[i], hash) {
        var j := InstalledDigest(t, es, hash, i);
      }
    }
    if HoldsAll(after, es, hash) {
      forall i, j | 0 <= i < |es| && 0 <= j < |es| && es[i].path == es[j].path ensures es[i].sha256 == es[j].sha256 {
        assert Holds(after, es[i], hash) && Holds(after, es[j], hash);
      }
    }
  }

  /** No import, complete or stopped half-way, changes or removes a file that was there. */
  lemma EarlierFilesKept(t: Tree, es: seq<Entry>, n: nat)
    requires n <= |es|
    ensures forall p :: p in t.files ==>
      p in InstalledUpTo(t, es, n).files && InstalledUpTo(t, es, n).files[p] == t.files[p]
  {
    forall p | p in t.files
      ensures p in InstalledUpTo(t, es, n).files && InstalledUpTo(t, es, n).files[p] == t.files[p] {
      InstalledFiles(t, es, n, p);
    }
  }

  /** Whatever an import adds, complete or not, is a verified entry. */
  lemma AddedFilesVerified(t: Tree, es: seq<Entry>, n: nat, hash: Content -> string, p: Path)
    requires n <= |es| && Verified(es, hash) && p in InstalledUpTo(t, es, n).files && p !in t.files
    ensures exists i :: 0 <= i < |es| && es[i].path == p
                        && InstalledUpTo(t, es, n).files[p] == es[i].content && EntryOk(es[i], hash)
  {
    InstalledFiles(t, es, n, p);
    var i := StagedLast(es, |es|, p);
    assert EntryOk(es[i], hash);
  }

  // ---------------------------------------------------------------- importing twice

  lemma TargetAfter(t: Tree, es: seq<Entry>, i: nat)
    requires i < |es| && NoClash(es) && es[i].path !in t.dirs
    ensures es[i].path !in Installed(t, es).dirs
  {
    InstalledDirs(t, es, |es|, es[i].path);
  }

  lemma ReachableAfter(t: Tree, es: seq<Entry>, n: nat, i: nat)
    requires n <= |es| && i < |es| && NoClash(es)
    ensures Reachable(InstalledUpTo(t, es, n).files, es[i]) <==> Reachable(t.files, es[i])
  {
    forall a | IsAncestor(a, es[i].path) ensures a in InstalledUpTo(t, es, n).files <==> a in t.files {
      InstalledFiles(t, es, n, a);
      if j: nat :| j < n && es[j].path == a {
        assert !IsAncestor(es[j].path, es[i].path);
      }
    }
  }

  /** Installing entries whose files and directories are all there changes nothing. */
  lemma {:induction false} NothingToInstall(t: Tree, es: seq<Entry>, n: nat)
    requires n <= |es|
    requires forall i :: 0 <= i < |es| ==> es[i].path in t.files && Ancestors(es[i].path) <= t.dirs
    ensures InstalledUpTo(t, es, n) == t
    decreases n
  {
    if n > 0 {
      NothingToInstall(t, es, n - 1);
      assert t.dirs + Ancestors(es[n - 1].path) == t.dirs;
    }
  }

  lemma InstalledTwice(t: Tree, es: seq<Entry>)
    ensures Installed(Installed(t, es), es) == Installed(t, es)
  {
    var after := Installed(t, es);
    forall i | 0 <= i < |es| ensures es[i].path in after.files && Ancestors(es[i].path) <= after.dirs {
      InstalledFiles(t, es, |es|, es[i].path);
      forall a | a in Ancestors(es[i].path) ensures a in after.dirs {
        InstalledDirs(t, es, |es|, a);
      }
    }
    NothingToInstall(after, es, |es|);
  }

  /**
     A second import of the same archive is accepted exactly when no two of its names
     mean one path with different digests, and then it changes nothing.
  */
  lemma ImportTwice(t: Tree, a: Archive, host: Host, hash: Content -> string)
    requires Imports(t, a, host, hash)
    ensures var es := Entries(Items(a), a.contents);
      && (Imports(Installed(t, es), a, host, hash) <==> SameDigests(es))
      && Installed(Installed(t, es), es) == Installed(t, es)
  {
    var es := Entries(Items(a), a.contents);
    var after := Installed(t, es);
    InstalledTwice(t, es);
    DeclaredDigests(t, es, hash);
    forall i | 0 <= i < |es|
      ensures es[i].path !in after.dirs && es[i].path in after.files && Reachable(after.files, es[i])
    {
      assert TargetOk(t, es[i], hash) && Reachable(t.files, es[i]);
      TargetAfter(t, es, i);
      InstalledFiles(t, es, |es|, es[i].path);
      ReachableAfter(t, es, |es|, i);
    }
    if NoConflict(after, es, hash) {
      forall i | 0 <= i < |es| ensures Holds(after, es[i], hash) {
        assert TargetOk(after, es[i], hash);
      }
    }
    if HoldsAll(after, es, hash) {
      forall i | 0 <= i < |es| ensures TargetOk(after, es[i], hash) {
        assert Holds(after, es[i], hash);
      }
    }
  }

  // ---------------------------------------------------------------- two archives in either order

  /** The entries pass every check against this tree. */
  ghost predicate Ready(t: Tree, es: seq<Entry>, hash: Content -> string) {
    Verified(es, hash) && NoConflict(t, es, hash) && AllReachable(t, es)
  }

  ghost predicate Injective(hash: Content -> string) {
    forall x, y :: hash(x) == hash(y) ==> x == y
  }

  lemma FilesEitherWay(t: Tree, es: seq<Entry>, fs: seq<Entry>, hash: Content -> string, p: Path)
    requires Ready(t, es, hash) && Ready(t, fs, hash) && Injective(hash)
    requires Ready(Installed(t, es), fs, hash)
    ensures var one, two := Installed(Installed(t, es), fs), Installed(Installed(t, fs), es);
      && (p in one.files <==> p in two.files)
      && (p in one.files ==> one.files[p] == two.files[p])
  {
    var a, b := Installed(t, es), Installed(t, fs);
    InstalledFiles(t, es, |es|, p);
    InstalledFiles(a, fs, |fs|, p);
    InstalledFiles(t, fs, |fs|, p);
    InstalledFiles(b, es, |es|, p);
    if p !in t.files && p in a.files && p in b.files {
      var i := StagedLast(es, |es|, p);
      var j := StagedLast(fs, |fs|, p);
      assert TargetOk(a, fs[j], hash) && EntryOk(fs[j], hash);
      assert hash(fs[j].content) == hash(es[i].content);
    }
  }

  lemma DirsEitherWay(t: Tree, es: seq<Entry>, fs: seq<Entry>, p: Path)
    ensures p in Installed(Installed(t, es), fs).dirs <==> p in Installed(Installed(t, fs), es).dirs
  {
    InstalledDirs(t, es, |es|, p);
    InstalledDirs(Installed(t, es), fs, |fs|, p);
    InstalledDirs(t, fs, |fs|, p);
    InstalledDirs(Installed(t, fs), es, |es|, p);
  }

  /** Two archives that can follow each other leave the same store in either order. */
  lemma ImportsCommute(t: Tree, es: seq<Entry>, fs: seq<Entry>, hash: Content -> string)
    requires Ready(t, es, hash) && Ready(t, fs, hash) && Injective(hash)
    requires Ready(Installed(t, es), fs, hash)
    ensures Installed(Installed(t, es), fs) == Installed(Installed(t, fs), es)
  {
    var one, two := Installed(Installed(t, es), fs), Installed(Installed(t, fs), es);
    forall p ensures (p in one.files <==> p in two.files) && (p in one.files ==> one.files[p] == two.files[p]) {
      FilesEitherWay(t, es, fs, hash, p);
    }
    forall p ensures p in one.dirs <==> p in two.dirs {
      DirsEitherWay(t, es, fs, p);
    }
    assert one.files == two.files;
    assert one.dirs == two.dirs;
  }

  lemma ConflictEitherWay(t: Tree, es: seq<Entry>, fs: seq<Entry>, hash: Content -> string, i: nat)
    requires Ready(t, es, hash) && Ready(t, fs, hash) && SameDigests(es) && SameDigests(fs)
    requires Ready(Installed(t, es), fs, hash) && i < |es|
    ensures TargetOk(Installed(t, fs), es[i], hash)
  {
    var a, b, p := Installed(t, es), Installed(t, fs), es[i].path;
    assert TargetOk(t, es[i], hash);
    InstalledFiles(t, es, |es|, p);
    InstalledFiles(t, fs, |fs|, p);
    InstalledDirs(t, fs, |fs|, p);
    forall j | 0 <= j < |fs| ensures !IsAncestor(p, fs[j].path) {
      assert Reachable(a.files, fs[j]);
    }
    if p in b.files && p !in t.files {
      var j: nat :| j < |fs| && fs[j].path == p;
      DeclaredDigests(t, es, hash);
      DeclaredDigests(t, fs, hash);
      assert Holds(a, es[i], hash) && Holds(b, fs[j], hash) && TargetOk(a, fs[j], hash);
    }
  }

  lemma ReachableEitherWay(t: Tree, es: seq<Entry>, fs: seq<Entry>, hash: Content -> string, i: nat)
    requires Ready(t, es, hash) && Ready(t, fs, hash) && Ready(Installed(t, es), fs, hash) && i < |es|
    ensures Reachable(Installed(t, fs).files, es[i])
  {
    var a, b := Installed(t, es), Installed(t, fs);
    forall c | IsAncestor(c, es[i].path) ensures c !in b.files {
      assert Reachable(t.files, es[i]);
      InstalledFiles(t, fs, |fs|, c);
      if j: nat :| j < |fs| && fs[j].path == c {
        assert TargetOk(a, fs[j], hash);
        InstalledDirs(t, es, |es|, c);
      }
    }
  }

  lemma FollowsBack(t: Tree, es: seq<Entry>, fs: seq<Entry>, hash: Content -> string)
    requires Ready(t, es, hash) && Ready(t, fs, hash) && SameDigests(es) && SameDigests(fs)
    requires Ready(Installed(t, es), fs, hash)
    ensures Ready(Installed(t, fs), es, hash)
  {
    forall i | 0 <= i < |es|
      ensures TargetOk(Installed(t, fs), es[i], hash) && Reachable(Installed(t, fs).files, es[i]) {
      ConflictEitherWay(t, es, fs, hash, i);
      ReachableEitherWay(t, es, fs, hash, i);
    }
  }

  /** Whether the second import is accepted does not depend on the order either. */
  lemma OrderDoesNotMatter(t: Tree, es: seq<Entry>, fs: seq<Entry>, hash: Content -> string)
    requires Ready(t, es, hash) && Ready(t, fs, hash) && SameDigests(es) && SameDigests(fs)
    ensures Ready(Installed(t, es), fs, hash) <==> Ready(Installed(t, fs), es, hash)
  {
    if Ready(Installed(t, es), fs, hash) {
      FollowsBack(t, es, fs, hash);
    }
    if Ready(Installed(t, fs), es, hash) {
      FollowsBack(t, fs, es, hash);
    }
  }

  // ---------------------------------------------------------------- the shape of the tree

  /** The names of a package path that comes from text are names of files. */
  lemma PartsAreNames(relative: string)
    requires IsPackagePath(Parts(relative))
    ensures AllNames(Parts(relative))
  {
    SplitParts(relative, '/');
    var names := Filter(IsKept, Split(relative, '/'));
    assert (["/"] + names)[0] == "/" && (["//"] + names)[0] == "//";
    assert Parts(relative) == names;
  }

  ghost predicate NamesOk(es: seq<Entry>) {
    forall i :: 0 <= i < |es| ==> AllNames(es[i].path)
  }

  lemma EntryNamesOk(a: Archive, hash: Content -> string)
    requires Listed(Items(a), a.contents) && Verified(Entries(Items(a), a.contents), hash)
    ensures NamesOk(Entries(Items(a), a.contents))
  {
    var es := Entries(Items(a), a.contents);
    forall i | 0 <= i < |es| ensures AllNames(es[i].path) {
      assert EntryOk(es[i], hash);
      PartsAreNames(Items(a)[i].path.value);
    }
  }

  /** A package file can be put at `p`. */
  ghost predicate HasRoom(t: Tree, p: Path) {
    && IsPackagePath(p) && p !in t.dirs && AllNames(p)
    && (forall a :: IsAncestor(a, p) ==> a !in t.files)
  }

  predicate IsWithFile(before: Tree, after: Tree, p: Path) {
    after.files.Keys == before.files.Keys + {p} && after.dirs == before.dirs + Ancestors(p)
  }

  /** The first `n` entries pass every check and find room for their directories. */
  ghost predicate CanInstall(t: Tree, es: seq<Entry>, n: nat, hash: Content -> string) {
    && n <= |es| && Verified(es, hash) && NamesOk(es) && NoConflict(t, es, hash)
    && forall i :: 0 <= i < n ==> Reachable(t.files, es[i])
  }

  /** A store that is a tree stays one, after every single entry. */
  lemma {:induction false} InstalledWellFormed(t: Tree, es: seq<Entry>, n: nat, hash: Content -> string)
    requires WellFormed(t) && CanInstall(t, es, n, hash)
    ensures WellFormed(InstalledUpTo(t, es, n))
    decreases n
  {
    if n == 0 {
      assert InstalledUpTo(t, es, 0) == t;
    } else {
      FewerEntries(t, es, n, hash);
      InstalledWellFormed(t, es, n - 1, hash);
      WellFormedNext(t, es, n, hash);
    }
  }

  lemma WellFormedNext(t: Tree, es: seq<Entry>, n: nat, hash: Content -> string)
    requires 0 < n && CanInstall(t, es, n, hash) && n <= |es| && WellFormed(InstalledUpTo(t, es, n - 1))
    ensures WellFormed(InstalledUpTo(t, es, n))
  {
    NextTarget(t, es, n, hash);
    WellFormedStep(t, es, n);
  }

  lemma FewerEntries(t: Tree, es: seq<Entry>, n: nat, hash: Content -> string)
    requires 0 < n && CanInstall(t, es, n, hash)
    ensures CanInstall(t, es, n - 1, hash)
  {}

  lemma WellFormedStep(t: Tree, es: seq<Entry>, n: nat)
    requires 0 < n <= |es| && WellFormed(InstalledUpTo(t, es, n - 1))
    requires HasRoom(InstalledUpTo(t, es, n - 1), es[n - 1].path)
    ensures WellFormed(InstalledUpTo(t, es, n))
  {
    InstalledStep(t, es, n);
    OneMoreFile(InstalledUpTo(t, es, n - 1), InstalledUpTo(t, es, n), es[n - 1].path);
  }

  lemma NextTarget(t: Tree, es: seq<Entry>, n: nat, hash: Content -> string)
    requires 0 < n && CanInstall(t, es, n, hash)
    ensures HasRoom(InstalledUpTo(t, es, n - 1), es[n - 1].path)
  {
    assert EntryOk(es[n - 1], hash) && TargetOk(t, es[n - 1], hash) && Reachable(t.files, es[n - 1]);
    RoomAfter(t, es, n - 1, es[n - 1]);
  }

  lemma RoomAfter(t: Tree, es: seq<Entry>, n: nat, e: Entry)
    requires n < |es| && e == es[n] && NoClash(es) && HasRoom(t, e.path)
    ensures HasRoom(InstalledUpTo(t, es, n), e.path)
  {
    assert Reachable(t.files, e);
    ReachableAfter(t, es, n, n);
    InstalledDirs(t, es, n, e.path);
  }

  lemma InstalledStep(t: Tree, es: seq<Entry>, n: nat)
    requires 0 < n <= |es|
    ensures IsWithFile(InstalledUpTo(t, es, n - 1), InstalledUpTo(t, es, n), es[n - 1].path)
  {}

  lemma OneMoreFile(before: Tree, after: Tree, p: Path)
    requires WellFormed(before) && HasRoom(before, p) && IsWithFile(before, after, p)
    ensures WellFormed(after)
  {
    forall q, a | q in after.dirs && IsAncestor(a, q) ensures a in after.dirs {
      if q !in before.dirs {
        assert IsAncestor(a, p);
      }
    }
    forall q | q in after.dirs ensures q != [] && AllNames(q) {
      if q !in before.dirs {
        assert forall name :: name in q ==> name in p;
      }
    }
  }

  // ---------------------------------------------------------------- where the promises end

  lemma NotInEmpty(p: Path)
    requires IsPackagePath(p) && "partial" !in p
    ensures p !in EMPTY.dirs && p !in EMPTY.files
  {
    assert "partial" in ["apt-archives", "partial"] && "partial" in ["apt-lists", "partial"];
  }

  const PLAIN_HOST := Host("x86_64", "linux", false, false, None, None)

  function TwoEntries(x: Item, y: Item, contents: map<string, Content>): Archive {
    Archive(1, Manifest(1, "x86_64", "linux", "", "", Some([x, y])), contents)
  }

  lemma TwoAcceptable(x: string, y: string, c: Content, d: Content, hash: Content -> string) returns (a: Archive)
    requires x != y && |c| <= 10 && |d| <= 10
    ensures Acceptable(a, PLAIN_HOST) && |Items(a)| == 2
    ensures Entries(Items(a), a.contents)
         == [Entry(Parts(x), c, Some(|c|), Some(hash(c))), Entry(Parts(y), d, Some(|d|), Some(hash(d)))]
  {
    var i, j := Item(Some(x), Some(|c|), Some(hash(c))), Item(Some(y), Some(|d|), Some(hash(d)));
    a := TwoEntries(i, j, map[x := c, y := d]);
    var items := [i, j];
    assert items[0].path == Some(x) && items[1].path == Some(y);
    assert items[..1] == [i] && [i][..0] == [];
    assert TotalSize([i]) == |c| && TotalSize(items) == |c| + |d|;
  }

  lemma AliasParts()
    ensures Parts("pip/a") == ["pip", "a"] && Parts("pip//a") == ["pip", "a"]
  {
    assert Join(["pip", "a"], '/') == "pip/a";
    PartsOfJoin(["pip", "a"]);
    assert "pip//a" == "pip" + ['/'] + "/a" && "/a" == "" + ['/'] + "a";
    SplitAtSeparator("pip//a", "pip", "/a", '/');
    SplitAtSeparator("/a", "", "a", '/');
    SplitWhole("a", '/');
    var names := ["pip", "", "a"];
    assert Split("pip//a", '/') == names;
    assert names[1..] == ["", "a"] && names[1..][1..] == ["a"] && ["a"][1..] == [];
    assert Filter(IsKept, ["a"]) == ["a"];
    assert Filter(IsKept, names) == ["pip", "a"];
  }

  lemma AliasedEntries(es: seq<Entry>, hash: Content -> string, x: Content, y: Content)
    requires hash(x) != hash(y) && |x| <= 10 && |y| <= 10
    requires es == [Entry(["pip", "a"], x, Some(|x|), Some(hash(x))), Entry(["pip", "a"], y, Some(|y|), Some(hash(y)))]
    ensures Ready(EMPTY, es, hash) && !SameDigests(es)
  {
    var p := ["pip", "a"];
    assert p[1] == "a" && p[0] == "pip" && IsPackagePath(p);
    NotInEmpty(p);
    assert EntryOk(es[0], hash) && EntryOk(es[1], hash);
    assert es[0].path == es[1].path && es[0].sha256 != es[1].sha256;
  }

  /**
     The digest promise does fail: an archive naming one file twice, as pip/a and
     pip//a, passes every check, and the file then has the content of the second name.
  */
  lemma AliasedNames(hash: Content -> string, x: Content, y: Content) returns (a: Archive)
    requires hash(x) != hash(y) && |x| <= 10 && |y| <= 10
    ensures Imports(EMPTY, a, PLAIN_HOST, hash)
    ensures !HoldsAll(Installed(EMPTY, Entries(Items(a), a.contents)), Entries(Items(a), a.contents), hash)
  {
    a := TwoAcceptable("pip/a", "pip//a", x, y, hash);
    AliasParts();
    var es := Entries(Items(a), a.contents);
    AliasedEntries(es, hash, x, y);
    DeclaredDigests(EMPTY, es, hash);
  }

  /** A store with one file. */
  function OneFile(c: Content): Tree {
    Tree(map[["pip", "a"] := c], EMPTY.dirs)
  }

  lemma NestedParts(p: Path, q: Path)
    requires p == ["npm", "x"] && q == ["pip", "a", "b"]
    ensures Parts(Join(p, '/')) == p && Parts(Join(q, '/')) == q && Join(p, '/') != Join(q, '/')
  {
    PartsOfJoin(p);
    PartsOfJoin(q);
  }

  lemma NestedEntries(es: seq<Entry>, hash: Content -> string, x: Content, y: Content)
    requires |x| <= 10 && |y| <= 10
    requires es == [Entry(["npm", "x"], x, Some(|x|), Some(hash(x))),
                    Entry(["pip", "a", "b"], y, Some(|y|), Some(hash(y)))]
    ensures Verified(es, hash) && NoConflict(OneFile(x), es, hash)
    ensures Reachable(OneFile(x).files, es[0]) && !Reachable(OneFile(x).files, es[1])
  {
    var p, q := ["npm", "x"], ["pip", "a", "b"];
    assert p[1] == "x" && q[1] == "a" && q[2] == "b" && p[0] == "npm" && q[0] == "pip";
    assert IsPackagePath(p) && IsPackagePath(q);
    assert EntryOk(es[0], hash) && EntryOk(es[1], hash);
    NotInEmpty(p);
    NotInEmpty(q);
    assert q[..2] == ["pip", "a"] && IsAncestor(["pip", "a"], q);
    assert p[..1] == ["npm"];
    assert ["pip", "a"][0] == "pip";
    assert TargetOk(OneFile(x), es[0], hash) && TargetOk(OneFile(x), es[1], hash);
  }

  /** All checks pass and still the import stops half-way: the first file is in the store, the second cannot be. */
  lemma HalfInstalled(hash: Content -> string, x: Content, y: Content) returns (a: Archive)
    requires |x| <= 10 && |y| <= 10
    ensures Checked(OneFile(x), a, PLAIN_HOST, hash) && !Imports(OneFile(x), a, PLAIN_HOST, hash)
    ensures var es := Entries(Items(a), a.contents);
      |es| == 2 && Reachable(OneFile(x).files, es[0]) && es[0].path !in OneFile(x).files
      && es[0].path in InstalledUpTo(OneFile(x), es, 1).files
  {
    var p, q := ["npm", "x"], ["pip", "a", "b"];
    NestedParts(p, q);
    a := TwoAcceptable(Join(p, '/'), Join(q, '/'), x, y, hash);
    var es := Entries(Items(a), a.contents);
    NestedEntries(es, hash, x, y);
    InstalledFiles(OneFile(x), es, 1, es[0].path);
    assert es[0].path[0] == "npm" && ["pip", "a"][0] == "pip";
  }
}
