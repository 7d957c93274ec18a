/**
 * The two Mongoose collections the controllers share (Folder and File), as one
 * object whose maps the controllers change, together with the primitive
 * queries and writes the controllers issue against them.
 */
module Database {
  import opened Wrappers
  import opened Models

  /** Folder `k` is a match for `findOne({name, parent, _id: {$ne: exclude}})`. */
  predicate SiblingMatch(fs: map<Id, Folder>, k: Id, name: string, parent: Option<Id>, exclude: Option<Id>) {
    k in fs && fs[k].name == name && fs[k].parent == parent && exclude != Some(k)
  }

  /** Some folder other than `exclude` already has this name under this parent. */
  ghost predicate SiblingExists(fs: map<Id, Folder>, name: string, parent: Option<Id>, exclude: Option<Id>) {
    exists k :: SiblingMatch(fs, k, name, parent, exclude)
  }

  /** No two folders share the same (name, parent); two roots count as siblings. */
  ghost predicate UniqueSiblings(fs: map<Id, Folder>) {
    forall a, b :: a in fs && b in fs && a != b ==>
      fs[a].name != fs[b].name || fs[a].parent != fs[b].parent
  }

  /** Adding or overwriting folder `id` with a name no other sibling has keeps sibling names unique. */
  lemma InsertKeepsUnique(fs: map<Id, Folder>, id: Id, f: Folder)
    requires UniqueSiblings(fs)
    requires !SiblingExists(fs, f.name, f.parent, Some(id))
    ensures UniqueSiblings(fs[id := f])
  {
    var fs' := fs[id := f];
    forall a, b | a in fs' && b in fs' && a != b
      ensures fs'[a].name != fs'[b].name || fs'[a].parent != fs'[b].parent
    {
      if a == id {
        assert !SiblingMatch(fs, b, f.name, f.parent, Some(id));
      } else if b == id {
        assert !SiblingMatch(fs, a, f.name, f.parent, Some(id));
      }
    }
  }

  /** Removing folders keeps sibling names unique. */
  lemma RemoveKeepsUnique(fs: map<Id, Folder>, gone: set<Id>)
    requires UniqueSiblings(fs)
    ensures UniqueSiblings(fs - gone)
  {
  }

  /**
   * Where sibling names are unique, a folder never clashes with itself: an
   * update that keeps its name and parent passes the duplicate check.
   */
  lemma KeepingNameNeverClashes(fs: map<Id, Folder>, id: Id)
    requires UniqueSiblings(fs)
    requires id in fs
    ensures !SiblingExists(fs, fs[id].name, fs[id].parent, Some(id))
  {
  }

  /** The direct subfolders of `id`. */
  ghost function ChildrenOf(fs: map<Id, Folder>, id: Id): set<Id> {
    set k | k in fs && fs[k].parent == Some(id)
  }

  /** The files whose folderId is one of `owners`. */
  function FilesIn(files: map<Id, File>, owners: set<Id>): set<Id> {
    set k | k in files && files[k].folderId.Some? && files[k].folderId.value in owners
  }

  /** The folders a delete of `id` removes: `id` and its direct subfolders. */
  ghost function CascadeFolders(fs: map<Id, Folder>, id: Id): set<Id> {
    {id} + ChildrenOf(fs, id)
  }

  /** The files a delete of `id` removes: those of `id` and of its direct subfolders. */
  ghost function CascadeFiles(fs: map<Id, Folder>, files: map<Id, File>, id: Id): set<Id> {
    FilesIn(files, CascadeFolders(fs, id))
  }

  /** Deleting one more owner's files after some owners' files is deleting the files of all of them. */
  lemma FilesInStep(files: map<Id, File>, owners: set<Id>, next: Id)
    ensures (files - FilesIn(files, owners)) - FilesIn(files - FilesIn(files, owners), {next})
         == files - FilesIn(files, owners + {next})
  {
    var left := (files - FilesIn(files, owners)) - FilesIn(files - FilesIn(files, owners), {next});
    var right := files - FilesIn(files, owners + {next});
    assert left.Keys == right.Keys;
  }

  /**
   * Deleting the target's files, then each direct subfolder with its files,
   * then the target is the cascade, and it keeps both folder invariants.
   */
  lemma CascadeComplete(fs: map<Id, Folder>, files: map<Id, File>, id: Id, children: set<Id>)
    requires forall k :: k in children <==> k in fs && fs[k].parent == Some(id)
    ensures (fs - children) - {id} == fs - CascadeFolders(fs, id)
    ensures files - FilesIn(files, {id} + children) == files - CascadeFiles(fs, files, id)
    ensures UniqueSiblings(fs) ==> UniqueSiblings(fs - CascadeFolders(fs, id))
    ensures FoldersValid(fs) ==> FoldersValid(fs - CascadeFolders(fs, id))
  {
    assert children == ChildrenOf(fs, id);
    assert {id} + children == CascadeFolders(fs, id);
    assert (fs - children) - {id} == fs - ({id} + children);
    if UniqueSiblings(fs) {
      RemoveKeepsUnique(fs, CascadeFolders(fs, id));
    }
  }

  /**
   * The cascade stops after one level: a grandchild of the deleted folder
   * (a folder whose parent is a direct subfolder other than the target)
   * survives together with its files, and its parent reference now dangles.
   */
  lemma {:induction false} CascadeOrphansGrandchildren(fs: map<Id, Folder>, files: map<Id, File>, id: Id, child: Id, grandchild: Id)
    requires id in fs && child in fs && grandchild in fs
    requires fs[child].parent == Some(id) && child != id
    requires fs[grandchild].parent == Some(child) && grandchild != id
    ensures var fs' := fs - CascadeFolders(fs, id);
      && grandchild in fs' && fs'[grandchild] == fs[grandchild]
      && child !in fs'
    ensures forall k :: k in files && files[k].folderId == Some(grandchild) ==>
      k in files - CascadeFiles(fs, files, id)
  {
    assert grandchild !in ChildrenOf(fs, id);
    assert child in ChildrenOf(fs, id);
  }

  /** Exactly the files owned by the target or by one of its direct subfolders are deleted. */
  lemma CascadeFilesExact(fs: map<Id, Folder>, files: map<Id, File>, id: Id, k: Id)
    requires k in files
    ensures k in CascadeFiles(fs, files, id) <==>
      files[k].folderId == Some(id)
      || (files[k].folderId.Some? && files[k].folderId.value in fs && fs[files[k].folderId.value].parent == Some(id))
  {
  }

  /** The ids a listing shows. */
  function IdsOf(docs: seq<Doc<Folder>>): set<Id> {
    set i | 0 <= i < |docs| :: docs[i].id
  }

  lemma IdsOfAppend(docs: seq<Doc<Folder>>, d: Doc<Folder>)
    ensures IdsOf(docs + [d]) == IdsOf(docs) + {d.id}
  {
    var e := docs + [d];
    forall x | x in IdsOf(e) ensures x in IdsOf(docs) + {d.id} {
      var i :| 0 <= i < |e| && e[i].id == x;
      if i < |docs| { assert docs[i] == e[i]; }
    }
    forall x | x in IdsOf(docs) + {d.id} ensures x in IdsOf(e) {
      if x == d.id {
        assert e[|docs|].id == x;
      } else {
        var i :| 0 <= i < |docs| && docs[i].id == x;
        assert e[i].id == x;
      }
    }
  }

  /** `docs` shows every folder of `fs` exactly once, each with its stored record. */
  ghost predicate IsListing(docs: seq<Doc<Folder>>, fs: map<Id, Folder>) {
    IdsOf(docs) == fs.Keys && RecordsMatch(docs, fs) && DistinctIds(docs)
  }

  /** `sort({createdAt: -1})`: newest first. */
  ghost predicate NewestFirst(docs: seq<Doc<Folder>>) {
    forall i, j :: 0 <= i < j < |docs| ==> docs[i].rec.createdAt >= docs[j].rec.createdAt
  }

  /** `k` is a newest folder among `s`. */
  predicate IsNewest(fs: map<Id, Folder>, s: set<Id>, k: Id)
    requires s <= fs.Keys
  {
    k in s && forall j :: j in s ==> fs[j].createdAt <= fs[k].createdAt
  }

  /** Every non-empty set of stored folders has a newest member. */
  lemma {:induction false} NewestExists(fs: map<Id, Folder>, s: set<Id>) returns (k: Id)
    requires s != {} && s <= fs.Keys
    ensures IsNewest(fs, s, k)
  {
    var x :| x in s;
    if s == {x} {
      k := x;
    } else {
      var m := NewestExists(fs, s - {x});
      k := if fs[x].createdAt <= fs[m].createdAt then m else x;
    }
  }

  /** Each listed document carries the stored record of its id. */
  ghost predicate RecordsMatch(docs: seq<Doc<Folder>>, fs: map<Id, Folder>) {
    forall i :: 0 <= i < |docs| ==> docs[i].id in fs && fs[docs[i].id] == docs[i].rec
  }

  /** No id is listed twice. */
  ghost predicate DistinctIds(docs: seq<Doc<Folder>>) {
    forall i, j :: 0 <= i < j < |docs| ==> docs[i].id != docs[j].id
  }

  /** No pending folder is newer than a listed one. */
  ghost predicate NoneNewer(fs: map<Id, Folder>, docs: seq<Doc<Folder>>, pending: set<Id>)
    requires pending <= fs.Keys
  {
    forall i, k :: 0 <= i < |docs| && k in pending ==> fs[k].createdAt <= docs[i].rec.createdAt
  }

  /**
   * The state of a newest-first listing in progress: `docs` lists the folders
   * outside `pending`, each once, newest first, and none of them is older
   * than a pending one.
   */
  ghost predicate ListedSoFar(fs: map<Id, Folder>, docs: seq<Doc<Folder>>, pending: set<Id>) {
    && pending <= fs.Keys
    && IdsOf(docs) + pending == fs.Keys
    && IdsOf(docs) !! pending
    && RecordsMatch(docs, fs)
    && DistinctIds(docs)
    && NewestFirst(docs)
    && NoneNewer(fs, docs, pending)
  }

  lemma AppendDistinct(docs: seq<Doc<Folder>>, d: Doc<Folder>)
    requires DistinctIds(docs) && d.id !in IdsOf(docs)
    ensures DistinctIds(docs + [d])
  {
    var e := docs + [d];
    forall i, j | 0 <= i < j < |e| ensures e[i].id != e[j].id {
      assert e[i] == docs[i];
      if j == |docs| {
        assert docs[i].id in IdsOf(docs);
      } else {
        assert e[j] == docs[j];
      }
    }
  }

  lemma AppendNewest(fs: map<Id, Folder>, docs: seq<Doc<Folder>>, pending: set<Id>, k: Id)
    requires pending <= fs.Keys
    requires NewestFirst(docs) && NoneNewer(fs, docs, pending) && IsNewest(fs, pending, k)
    ensures NewestFirst(docs + [Doc(k, fs[k])])
    ensures NoneNewer(fs, docs + [Doc(k, fs[k])], pending - {k})
  {
    var e := docs + [Doc(k, fs[k])];
    forall i, j | 0 <= i < j < |e| ensures e[i].rec.createdAt >= e[j].rec.createdAt {
      assert e[i] == docs[i];
      if j < |docs| { assert e[j] == docs[j]; }
    }
    forall i, j | 0 <= i < |e| && j in pending - {k} ensures fs[j].createdAt <= e[i].rec.createdAt {
      if i < |docs| { assert e[i] == docs[i]; }
    }
  }

  lemma AppendRecord(fs: map<Id, Folder>, docs: seq<Doc<Folder>>, k: Id)
    requires RecordsMatch(docs, fs) && k in fs
    ensures RecordsMatch(docs + [Doc(k, fs[k])], fs)
  {
    var e := docs + [Doc(k, fs[k])];
    forall i | 0 <= i < |e| ensures e[i].id in fs && fs[e[i].id] == e[i].rec {
      if i < |docs| { assert e[i] == docs[i]; }
    }
  }

  /** Listing a newest pending folder next keeps the listing in order. */
  lemma ListNext(fs: map<Id, Folder>, docs: seq<Doc<Folder>>, pending: set<Id>, k: Id)
    requires ListedSoFar(fs, docs, pending)
    requires IsNewest(fs, pending, k)
    ensures ListedSoFar(fs, docs + [Doc(k, fs[k])], pending - {k})
  {
    IdsOfAppend(docs, Doc(k, fs[k]));
    AppendDistinct(docs, Doc(k, fs[k]));
    AppendNewest(fs, docs, pending, k);
    AppendRecord(fs, docs, k);
  }

  class Store {
    var folders: map<Id, Folder>
    var files: map<Id, File>

    /** An empty database. */
    constructor ()
      ensures folders == map[] && files == map[]
    {
      folders := map[];
      files := map[];
    }

    /**
     * `Folder.findOne({name, parent, _id: {$ne: exclude}})`: some matching
     * folder, or None exactly when there is none.
     */
    method FindFolder(name: string, parent: Option<Id>, exclude: Option<Id>) returns (found: Option<Doc<Folder>>)
      ensures found.None? <==> !SiblingExists(folders, name, parent, exclude)
      ensures found.Some? ==> SiblingMatch(folders, found.value.id, name, parent, exclude)
                              && found.value.rec == folders[found.value.id]
    {
      var matches := set k | k in folders && SiblingMatch(folders, k, name, parent, exclude);
      if matches == {} {
        assert forall k :: SiblingMatch(folders, k, name, parent, exclude) ==> k in matches;
        found := None;
      } else {
        var k :| k in matches;
        assert SiblingMatch(folders, k, name, parent, exclude);
        found := Some(Doc(k, folders[k]));
      }
    }

    /** `Folder.findById(id)`. */
    method FindFolderById(id: Id) returns (found: Option<Doc<Folder>>)
      ensures found.None? <==> id !in folders
      ensures found.Some? ==> found.value.id == id && found.value.rec == folders[id]
    {
      if id in folders {
        found := Some(Doc(id, folders[id]));
      } else {
        found := None;
      }
    }

    /** `Folder.find({parent: id})`: the ids of the folders whose parent is `id`. */
    method FindChildren(id: Id) returns (children: set<Id>)
      ensures forall k :: k in children <==> k in folders && folders[k].parent == Some(id)
    {
      children := set k | k in folders && folders[k].parent == Some(id);
    }

    /**
     * `Folder.find().sort({createdAt: -1})`: every folder once, newest first.
     * The database's sort is modelled as repeatedly taking a newest folder
     * among those not listed yet; ties come out in an unspecified order.
     */
    method FindAllNewestFirst() returns (docs: seq<Doc<Folder>>)
      ensures IsListing(docs, folders)
      ensures NewestFirst(docs)
    {
      var pending := folders.Keys;
      docs := [];
      while pending != {}
        invariant ListedSoFar(folders, docs, pending)
        decreases pending
      {
        ghost var newest := NewestExists(folders, pending);
        var k :| k in pending && IsNewest(folders, pending, k);
        ListNext(folders, docs, pending, k);
        docs := docs + [Doc(k, folders[k])];
        pending := pending - {k};
      }
    }

    /** `folder.save()` of a new document under a fresh id. */
    method InsertFolder(id: Id, f: Folder)
      requires id !in folders
      modifies this
      ensures folders == old(folders)[id := f]
      ensures files == old(files)
    {
      folders := folders[id := f];
    }

    /**
     * `Folder.findByIdAndUpdate(id, {name, parent}, {new: true})`: overwrites
     * both fields and the update time of an existing folder and returns the
     * new document; returns None and changes nothing for an absent id.
     */
    method UpdateFolderById(id: Id, name: string, parent: Option<Id>, now: nat) returns (updated: Option<Doc<Folder>>)
      modifies this
      ensures id !in old(folders) ==> updated.None? && folders == old(folders)
      ensures id in old(folders) ==>
        && updated == Some(Doc(id, Renamed(old(folders)[id], name, parent, now)))
        && folders == old(folders)[id := Renamed(old(folders)[id], name, parent, now)]
      ensures files == old(files)
    {
      if id in folders {
        var f := Renamed(folders[id], name, parent, now);
        folders := folders[id := f];
        updated := Some(Doc(id, f));
      } else {
        updated := None;
      }
    }

    /** `Folder.findByIdAndDelete(id)`; a no-op for an absent id. */
    method DeleteFolderById(id: Id)
      modifies this
      ensures folders == old(folders) - {id}
      ensures files == old(files)
    {
      folders := folders - {id};
    }

    /** `File.deleteMany({folderId})`. */
    method DeleteFilesIn(folderId: Id)
      modifies this
      ensures files == old(files) - FilesIn(old(files), {folderId})
      ensures folders == old(folders)
    {
      files := files - FilesIn(files, {folderId});
    }

    /**
     * `file.save()` of a new document: the schema is validated first, then the
     * write happens unless the database reports `fault`. Returns the error
     * message of a failed save and changes nothing in that case.
     */
    method SaveFile(id: Id, f: File, fault: Option<string>) returns (err: Option<string>)
      requires id !in files
      modifies this
      ensures !FileValid(f) ==> err == Some(ValidationFailed) && files == old(files)
      ensures FileValid(f) && fault.Some? ==> err == fault && files == old(files)
      ensures FileValid(f) && fault.None? ==> err.None? && files == old(files)[id := f]
      ensures folders == old(folders)
    {
      if MissingFilePaths(f) != [] {
        err := Some(ValidationFailed);
      } else if fault.Some? {
        err := fault;
      } else {
        files := files[id := f];
        err := None;
      }
    }
  }

  /** The message of the ValidationError a save with a missing required path raises. */
  const ValidationFailed: string := "File validation failed"
}
