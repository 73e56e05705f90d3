/** Exports of the package store, and what importing them gives. */
module OfflinePackageExport {
  import opened Common
  import opened Text
  import opened OfflinePackageStore
  import opened OfflinePackageProperties

  /**
   The files an export takes: no lock files, nothing in a partial directory, and only
   the selected ones if any are selected.
  */
  predicate Exports(t: Tree, selected: Option<set<string>>, p: Path) {
    && p in t.files && p != [] && p[|p| - 1] != "lock" && "partial" !in p
    && (selected.Some? ==> Join(p, '/') in selected.value)
  }

  /** Every file of the tree comes up exactly once when the kinds are walked. */
  ghost predicate IsListing(t: Tree, listing: seq<Path>) {
    && (forall p :: p in t.files ==> p in listing)
    && (forall i, j :: 0 <= i < j < |listing| ==> listing[i] != listing[j])
  }

  function ItemOf(t: Tree, p: Path, hash: Content -> string): Item
    requires p in t.files
  {
    Item(Some(Join(p, '/')), Some(|t.files[p]|), Some(hash(t.files[p])))
  }

  /** The manifest list and the archive entries of an export, file by file. */
  function ExportItems(t: Tree, selected: Option<set<string>>, listing: seq<Path>, hash: Content -> string): seq<Item> {
    if listing == [] then []
    else
      var last := listing[|listing| - 1];
      ExportItems(t, selected, listing[..|listing| - 1], hash)
      + (if Exports(t, selected, last) then [ItemOf(t, last, hash)] else [])
  }

  function ExportContents(t: Tree, selected: Option<set<string>>, listing: seq<Path>): map<string, Content> {
    if listing == [] then map[]
    else
      var last := listing[|listing| - 1];
      var before := ExportContents(t, selected, listing[..|listing| - 1]);
      if Exports(t, selected, last) then before[Join(last, '/') := t.files[last]] else before
  }

  /** The images an export records must be known to the engine. */
  predicate ImagesKnown(host: Host) {
    && (host.scriptImage ==> host.baseImageId.Some? && host.baseImageId.value != "")
    && (host.runtimeImage ==> host.runtimeImageId.Some? && host.runtimeImageId.value != "")
  }

  function Exported(t: Tree, selected: Option<set<string>>, listing: seq<Path>, host: Host, hash: Content -> string,
      bytes: nat): Archive
    requires ImagesKnown(host)
  {
    Archive(bytes,
      Manifest(1, host.platform, host.os,
        if host.scriptImage then host.baseImageId.value else "",
        if host.runtimeImage then host.runtimeImageId.value else "",
        Some(ExportItems(t, selected, listing, hash))),
      ExportContents(t, selected, listing))
  }

  /** What the import of an export has to reproduce. */
  function ExportedFiles(t: Tree, selected: Option<set<string>>): map<Path, Content> {
    map p | p in t.files && Exports(t, selected, p) :: t.files[p]
  }

  ghost predicate WithinLimits(t: Tree, a: Archive, selected: Option<set<string>>) {
    && 0 < a.bytes <= MAX_ARCHIVE_BYTES && |Items(a)| <= MAX_ENTRIES
    && TotalSize(Items(a)) <= MAX_ARCHIVE_BYTES * 2
    && forall p :: p in t.files && Exports(t, selected, p) ==> |t.files[p]| <= MAX_ENTRY_BYTES
  }

  lemma FilePath(t: Tree, p: Path)
    requires WellFormed(t) && p in t.files
    ensures Parts(Join(p, '/')) == p && IsPackagePath(p)
  {
    PartsOfJoin(p);
  }

  /** The item at `i` stands for the exported path `r`. */
  predicate Stands(t: Tree, items: seq<Item>, i: nat, p: Path, hash: Content -> string) {
    i < |items| && p in t.files && items[i] == ItemOf(t, p, hash)
  }

  /** Items and listing correspond: every item stands for an exported file of the listing, and the other way round. */
  lemma {:induction false} ItemPath(t: Tree, selected: Option<set<string>>, listing: seq<Path>, hash: Content -> string,
      i: nat) returns (p: Path)
    requires i < |ExportItems(t, selected, listing, hash)|
    ensures p in listing && Exports(t, selected, p) && Stands(t, ExportItems(t, selected, listing, hash), i, p, hash)
    decreases |listing|
  {
    var rest, last := listing[..|listing| - 1], listing[|listing| - 1];
    if i < |ExportItems(t, selected, rest, hash)| {
      p := ItemPath(t, selected, rest, hash, i);
    } else {
      p := last;
    }
  }

  lemma {:induction false} PathItem(t: Tree, selected: Option<set<string>>, listing: seq<Path>, hash: Content -> string,
      p: Path) returns (i: nat)
    requires p in listing && Exports(t, selected, p)
    ensures Stands(t, ExportItems(t, selected, listing, hash), i, p, hash)
    decreases |listing|
  {
    var rest, last := listing[..|listing| - 1], listing[|listing| - 1];
    if p == last {
      i := |ExportItems(t, selected, rest, hash)|;
    } else {
      i := PathItem(t, selected, rest, hash, p);
    }
  }

  /** No path is listed twice in the manifest. */
  lemma {:induction false} ItemsDiffer(t: Tree, selected: Option<set<string>>, listing: seq<Path>,
      hash: Content -> string, i: nat, j: nat)
    requires WellFormed(t) && forall a, b :: 0 <= a < b < |listing| ==> listing[a] != listing[b]
    requires i < j < |ExportItems(t, selected, listing, hash)|
    ensures ExportItems(t, selected, listing, hash)[i] != ExportItems(t, selected, listing, hash)[j]
    ensures var items := ExportItems(t, selected, listing, hash);
            items[i].Item? && items[j].Item? && items[i].path != items[j].path
    decreases |listing|
  {
    var rest, last := listing[..|listing| - 1], listing[|listing| - 1];
    var before := ExportItems(t, selected, rest, hash);
    if j < |before| {
      ItemsDiffer(t, selected, rest, hash, i, j);
    } else {
      var p := ItemPath(t, selected, rest, hash, i);
      assert p != last;
      FilePath(t, p);
      FilePath(t, last);
    }
  }

  /** The entries of the archive are the exported files under their names. */
  lemma {:induction false} ContentsAre(t: Tree, selected: Option<set<string>>, listing: seq<Path>, name: string)
    requires WellFormed(t)
    ensures name in ExportContents(t, selected, listing) ==>
      && Parts(name) in listing && Exports(t, selected, Parts(name)) && Join(Parts(name), '/') == name
      && ExportContents(t, selected, listing)[name] == t.files[Parts(name)]
    ensures Parts(name) in listing && Exports(t, selected, Parts(name)) && Join(Parts(name), '/') == name ==>
      name in ExportContents(t, selected, listing)
    decreases |listing|
  {
    if listing != [] {
      var rest, last := listing[..|listing| - 1], listing[|listing| - 1];
      assert listing == rest + [last];
      ContentsAre(t, selected, rest, name);
      if Exports(t, selected, last) {
        FilePath(t, last);
      }
    }
  }

  lemma ExportListed(t: Tree, selected: Option<set<string>>, listing: seq<Path>, hash: Content -> string)
    requires WellFormed(t) && IsListing(t, listing)
    ensures Listed(ExportItems(t, selected, listing, hash), ExportContents(t, selected, listing))
  {
    var items, contents := ExportItems(t, selected, listing, hash), ExportContents(t, selected, listing);
    forall i | 0 <= i < |items| ensures items[i].Item? && items[i].path.Some? && items[i].path.value in contents {
      var p := ItemPath(t, selected, listing, hash, i);
      FilePath(t, p);
      ContentsAre(t, selected, listing, Join(p, '/'));
    }
    forall i, j | 0 <= i < j < |items| ensures items[i].path != items[j].path {
      ItemsDiffer(t, selected, listing, hash, i, j);
    }
    forall name | name in contents ensures exists i :: 0 <= i < |items| && items[i].path == Some(name) {
      ContentsAre(t, selected, listing, name);
      var i := PathItem(t, selected, listing, hash, Parts(name));
    }
  }

  /** The entry the import reads for one item. */
  predicate IsEntryOf(t: Tree, selected: Option<set<string>>, e: Entry, p: Path, hash: Content -> string) {
    Exports(t, selected, p) && IsPackagePath(p) && e == Entry(p, t.files[p], Some(|t.files[p]|), Some(hash(t.files[p])))
  }

  lemma ExportedEntry(t: Tree, selected: Option<set<string>>, listing: seq<Path>, hash: Content -> string, i: nat)
    returns (p: Path)
    requires WellFormed(t) && IsListing(t, listing) && i < |ExportItems(t, selected, listing, hash)|
    requires Listed(ExportItems(t, selected, listing, hash), ExportContents(t, selected, listing))
    ensures var entries := Entries(ExportItems(t, selected, listing, hash), ExportContents(t, selected, listing));
      IsEntryOf(t, selected, entries[i], p, hash)
  {
    p := ItemPath(t, selected, listing, hash, i);
    FilePath(t, p);
    ContentsAre(t, selected, listing, Join(p, '/'));
  }

  lemma FileEntry(t: Tree, selected: Option<set<string>>, listing: seq<Path>, hash: Content -> string, p: Path)
    returns (i: nat)
    requires WellFormed(t) && IsListing(t, listing) && Exports(t, selected, p)
    requires Listed(ExportItems(t, selected, listing, hash), ExportContents(t, selected, listing))
    ensures var es := Entries(ExportItems(t, selected, listing, hash), ExportContents(t, selected, listing));
      i < |es| && es[i].path == p && es[i].content == t.files[p]
  {
    i := PathItem(t, selected, listing, hash, p);
    var q := ExportedEntry(t, selected, listing, hash, i);
    FilePath(t, p);
    FilePath(t, q);
  }

  /** All entries come from exported files, and all exported files are entries. */
  ghost predicate AreEntriesOf(t: Tree, selected: Option<set<string>>, es: seq<Entry>, hash: Content -> string) {
    && (forall i :: 0 <= i < |es| ==> IsEntryOf(t, selected, es[i], es[i].path, hash))
    && (forall p :: Exports(t, selected, p) ==> exists i :: 0 <= i < |es| && es[i].path == p)
  }

  lemma ExportedEntries(t: Tree, selected: Option<set<string>>, listing: seq<Path>, hash: Content -> string)
    requires WellFormed(t) && IsListing(t, listing)
    requires Listed(ExportItems(t, selected, listing, hash), ExportContents(t, selected, listing))
    ensures AreEntriesOf(t, selected,
                         Entries(ExportItems(t, selected, listing, hash), ExportContents(t, selected, listing)), hash)
  {
    var es := Entries(ExportItems(t, selected, listing, hash), ExportContents(t, selected, listing));
    forall i | 0 <= i < |es| ensures IsEntryOf(t, selected, es[i], es[i].path, hash) {
      var p := ExportedEntry(t, selected, listing, hash, i);
    }
    forall p | Exports(t, selected, p) ensures exists i :: 0 <= i < |es| && es[i].path == p {
      var i := FileEntry(t, selected, listing, hash, p);
    }
  }

  /** Exported files are verified, as far as their sizes allow, and an empty store takes them all. */
  lemma ExportVerified(t: Tree, selected: Option<set<string>>, es: seq<Entry>, hash: Content -> string)
    requires WellFormed(t) && AreEntriesOf(t, selected, es, hash)
    ensures Verified(es, hash) <==> forall p :: p in t.files && Exports(t, selected, p) ==>
      |t.files[p]| <= MAX_ENTRY_BYTES
    ensures NoConflict(EMPTY, es, hash) && AllReachable(EMPTY, es)
  {
    forall i, j | 0 <= i < |es| && 0 <= j < |es| ensures !IsAncestor(es[i].path, es[j].path) {
      assert IsEntryOf(t, selected, es[i], es[i].path, hash) && IsEntryOf(t, selected, es[j], es[j].path, hash);
    }
    forall i | 0 <= i < |es| ensures EntryOk(es[i], hash) <==> |es[i].content| <= MAX_ENTRY_BYTES {
      assert IsEntryOf(t, selected, es[i], es[i].path, hash);
    }
    if Verified(es, hash) {
      forall p | p in t.files && Exports(t, selected, p) ensures |t.files[p]| <= MAX_ENTRY_BYTES {
        var i :| 0 <= i < |es| && es[i].path == p;
        assert IsEntryOf(t, selected, es[i], es[i].path, hash) && EntryOk(es[i], hash);
      }
    }
    forall i | 0 <= i < |es| ensures TargetOk(EMPTY, es[i], hash) {
      assert IsEntryOf(t, selected, es[i], es[i].path, hash);
      NotInEmpty(es[i].path);
    }
  }

  lemma ImportedFiles(t: Tree, selected: Option<set<string>>, es: seq<Entry>, hash: Content -> string)
    requires AreEntriesOf(t, selected, es, hash)
    ensures Installed(EMPTY, es).files == ExportedFiles(t, selected)
  {
    var after := Installed(EMPTY, es).files;
    forall p
      ensures p in after <==> p in ExportedFiles(t, selected)
      ensures p in after ==> after[p] == ExportedFiles(t, selected)[p]
    {
      InstalledFiles(EMPTY, es, |es|, p);
      if p in after {
        var i := StagedLast(es, |es|, p);
        assert IsEntryOf(t, selected, es[i], es[i].path, hash);
      }
    }
  }

  /**
     Importing an export into an empty store on the same machine succeeds exactly
     within the limits, and the store then has exactly the exported files.
  */
  lemma ExportImport(t: Tree, selected: Option<set<string>>, listing: seq<Path>, host: Host, hash: Content -> string,
      bytes: nat)
    requires WellFormed(t) && IsListing(t, listing) && ImagesKnown(host)
    ensures var a := Exported(t, selected, listing, host, hash, bytes);
      && Listed(Items(a), a.contents)
      && (Imports(EMPTY, a, host, hash) <==> WithinLimits(t, a, selected))
      && Installed(EMPTY, Entries(Items(a), a.contents)).files == ExportedFiles(t, selected)
  {
    ExportListed(t, selected, listing, hash);
    ExportedEntries(t, selected, listing, hash);
    var a := Exported(t, selected, listing, host, hash, bytes);
    var es := Entries(Items(a), a.contents);
    ExportVerified(t, selected, es, hash);
    ImportedFiles(t, selected, es, hash);
  }
}
