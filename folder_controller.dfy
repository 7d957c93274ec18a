/**
 * The folder handlers of backend/controllers/folderController.js. Each takes
 * the shared store and the request's fields and returns the response it sends.
 * Fresh ids and the current time come from the database and are parameters.
 */
module FolderController {
  import opened Wrappers
  import opened Models
  import opened Http
  import opened Database

  /** The JSON body of a create or update request. */
  datatype FolderBody = FolderBody(name: Option<string>, parentId: Option<string>)

  const NameRequired: string := "Folder name is required"
  const AlreadyExists: string := "Folder already exists"
  const NameTaken: string := "Folder name already exists"
  const FolderNotFound: string := "Folder not found"
  const FolderDeleted: string := "Folder and its contents deleted successfully"

  /**
   * POST /api/folders. A missing or empty name is rejected first, then a
   * sibling with the same name under the same parent (an absent parentId is
   * the root); otherwise exactly one folder is added and nothing else changes.
   */
  method CreateFolder(db: Store, body: FolderBody, newId: Id, now: nat) returns (out: Outcome<Doc<Folder>>)
    requires newId !in db.folders
    modifies db
    ensures Falsy(body.name) ==>
      out == BadRequest(NameRequired) && db.folders == old(db.folders) && db.files == old(db.files)
    ensures !Falsy(body.name) && SiblingExists(old(db.folders), body.name.value, OrNull(body.parentId), None) ==>
      out == BadRequest(AlreadyExists) && db.folders == old(db.folders) && db.files == old(db.files)
    ensures !Falsy(body.name) && !SiblingExists(old(db.folders), body.name.value, OrNull(body.parentId), None) ==>
      var f := NewFolder(body.name.value, OrNull(body.parentId), now);
      && out == Created(Doc(newId, f))
      && db.folders == old(db.folders)[newId := f]
      && db.files == old(db.files)
    ensures old(UniqueSiblings(db.folders)) ==> UniqueSiblings(db.folders)
    ensures old(FoldersValid(db.folders)) ==> FoldersValid(db.folders)
  {
    if Falsy(body.name) {
      return BadRequest(NameRequired);
    }
    var name := body.name.value;
    var parent := OrNull(body.parentId);
    var existing := db.FindFolder(name, parent, None);
    if existing.Some? {
      return BadRequest(AlreadyExists);
    }
    var f := NewFolder(name, parent, now);
    if UniqueSiblings(db.folders) {
      assert forall k :: SiblingMatch(db.folders, k, name, parent, Some(newId)) ==> SiblingMatch(db.folders, k, name, parent, None);
      InsertKeepsUnique(db.folders, newId, f);
    }
    db.InsertFolder(newId, f);
    return Created(Doc(newId, f));
  }

  /** GET /api/folders: every folder exactly once, newest first. */
  method GetFolders(db: Store) returns (out: Outcome<seq<Doc<Folder>>>)
    ensures out.Ok?
    ensures IsListing(out.body, db.folders)
    ensures NewestFirst(out.body)
  {
    var docs := db.FindAllNewestFirst();
    return Ok(docs);
  }

  /** GET /api/folders/:id: the stored folder, or 404 when the id is absent. */
  method GetFolderById(db: Store, id: Id) returns (out: Outcome<Doc<Folder>>)
    ensures id !in db.folders ==> out == NotFound(FolderNotFound)
    ensures id in db.folders ==> out == Ok(Doc(id, db.folders[id]))
  {
    var folder := db.FindFolderById(id);
    if folder.None? {
      return NotFound(FolderNotFound);
    }
    return Ok(folder.value);
  }

  /**
   * DELETE /api/folders/:id. An absent id gives 404 and changes nothing.
   * Otherwise the cascade reaches one level: the folder, its direct
   * subfolders, and the files of those; every other folder and file stays,
   * including deeper descendants.
   */
  method DeleteFolder(db: Store, id: Id) returns (out: Outcome<string>)
    modifies db
    ensures id !in old(db.folders) ==>
      out == NotFound(FolderNotFound) && db.folders == old(db.folders) && db.files == old(db.files)
    ensures id in old(db.folders) ==>
      && out == Ok(FolderDeleted)
      && db.folders == old(db.folders) - CascadeFolders(old(db.folders), id)
      && db.files == old(db.files) - CascadeFiles(old(db.folders), old(db.files), id)
    ensures old(UniqueSiblings(db.folders)) ==> UniqueSiblings(db.folders)
    ensures old(FoldersValid(db.folders)) ==> FoldersValid(db.folders)
  {
    var folder := db.FindFolderById(id);
    if folder.None? {
      return NotFound(FolderNotFound);
    }
    ghost var folders0, files0 := db.folders, db.files;
    db.DeleteFilesIn(id);
    var subFolders := db.FindChildren(id);
    var pending := subFolders;
    ghost var done: set<Id> := {};
    while pending != {}
      invariant pending <= subFolders && done == subFolders - pending
      invariant db.folders == folders0 - done
      invariant db.files == files0 - FilesIn(files0, {id} + done)
      decreases pending
    {
      var sub :| sub in pending;
      FilesInStep(files0, {id} + done, sub);
      db.DeleteFilesIn(sub);
      db.DeleteFolderById(sub);
      pending := pending - {sub};
      assert {id} + done + {sub} == {id} + (done + {sub});
      done := done + {sub};
    }
    assert done == subFolders;
    db.DeleteFolderById(id);
    assert db.folders == (folders0 - subFolders) - {id};
    CascadeComplete(folders0, files0, id, subFolders);
    return Ok(FolderDeleted);
  }

  /**
   * PUT /api/folders/:id. Checked in this order: a missing or empty name
   * (400), a clashing sibling other than the folder itself (400), an absent id
   * (404). On success both name and parent are overwritten (an absent parentId
   * moves the folder to the root); neither the parent's existence nor cycles
   * are checked.
   */
  method UpdateFolder(db: Store, id: Id, body: FolderBody, now: nat) returns (out: Outcome<Doc<Folder>>)
    modifies db
    ensures Falsy(body.name) ==>
      out == BadRequest(NameRequired) && db.folders == old(db.folders) && db.files == old(db.files)
    ensures !Falsy(body.name) && SiblingExists(old(db.folders), body.name.value, OrNull(body.parentId), Some(id)) ==>
      out == BadRequest(NameTaken) && db.folders == old(db.folders) && db.files == old(db.files)
    ensures !Falsy(body.name) && !SiblingExists(old(db.folders), body.name.value, OrNull(body.parentId), Some(id))
            && id !in old(db.folders) ==>
      out == NotFound(FolderNotFound) && db.folders == old(db.folders) && db.files == old(db.files)
    ensures !Falsy(body.name) && !SiblingExists(old(db.folders), body.name.value, OrNull(body.parentId), Some(id))
            && id in old(db.folders) ==>
      var f := Renamed(old(db.folders)[id], body.name.value, OrNull(body.parentId), now);
      && out == Ok(Doc(id, f))
      && db.folders == old(db.folders)[id := f]
      && db.files == old(db.files)
    ensures old(UniqueSiblings(db.folders)) ==> UniqueSiblings(db.folders)
    ensures old(FoldersValid(db.folders)) ==> FoldersValid(db.folders)
  {
    if Falsy(body.name) {
      return BadRequest(NameRequired);
    }
    var name := body.name.value;
    var parent := OrNull(body.parentId);
    var existing := db.FindFolder(name, parent, Some(id));
    if existing.Some? {
      return BadRequest(NameTaken);
    }
    if UniqueSiblings(db.folders) && id in db.folders {
      InsertKeepsUnique(db.folders, id, Renamed(db.folders[id], name, parent, now));
    }
    var folder := db.UpdateFolderById(id, name, parent, now);
    if folder.None? {
      return NotFound(FolderNotFound);
    }
    return Ok(folder.value);
  }
}
