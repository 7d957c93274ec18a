/**
 * Clients of the handlers on a fresh, empty store: each runs a short request
 * sequence and states, from the handlers' contracts alone, what it returns.
 */
module Scenarios {
  import opened Wrappers
  import opened Models
  import opened Http
  import opened Database
  import opened FolderController
  import opened FileController

  /** Root folder "Docs" (id d1) and its subfolder "2024" (id d2). */
  function DocsTree(): map<Id, Folder> {
    map["d1" := NewFolder("Docs", None, 1), "d2" := NewFolder("2024", Some("d1"), 2)]
  }

  /** DocsTree with "Q1" (id d3) inside "2024". */
  function QuarterTree(): map<Id, Folder> {
    DocsTree()["d3" := NewFolder("Q1", Some("d2"), 3)]
  }

  /** Creating root folder "Docs" twice: the second request is a 400 and only one "Docs" exists. */
  method DuplicateRootFolder() returns (first: Outcome<Doc<Folder>>, second: Outcome<Doc<Folder>>, db: Store)
    ensures first == Created(Doc("d1", NewFolder("Docs", None, 1)))
    ensures second == BadRequest(AlreadyExists) && Status(first) == 201 && Status(second) == 400
    ensures db.folders == map["d1" := NewFolder("Docs", None, 1)]
  {
    db := new Store();
    first := CreateFolder(db, FolderBody(Some("Docs"), None), "d1", 1);
    assert SiblingMatch(db.folders, "d1", "Docs", None, None);
    second := CreateFolder(db, FolderBody(Some("Docs"), Some("")), "d2", 2);
  }

  /** Creating "Docs" at the root and "2024" inside it. */
  method BuildDocsTree() returns (db: Store)
    ensures fresh(db) && db.folders == DocsTree() && db.files == map[]
  {
    db := new Store();
    var docs := CreateFolder(db, FolderBody(Some("Docs"), None), "d1", 1);
    assert !SiblingMatch(db.folders, "d1", "2024", Some("d1"), None);
    var year := CreateFolder(db, FolderBody(Some("2024"), Some("d1")), "d2", 2);
  }

  /** BuildDocsTree, then "Q1" inside "2024". */
  method BuildQuarterTree() returns (db: Store)
    ensures fresh(db) && db.folders == QuarterTree() && db.files == map[]
  {
    db := BuildDocsTree();
    assert !SiblingMatch(db.folders, "d1", "Q1", Some("d2"), None);
    assert !SiblingMatch(db.folders, "d2", "Q1", Some("d2"), None);
    var quarter := CreateFolder(db, FolderBody(Some("Q1"), Some("d2")), "d3", 3);
  }

  /** The cascade sets of DocsTree with report.pdf in "2024". */
  lemma DocsCascade(files: map<Id, File>)
    requires files.Keys == {"x1"} && files["x1"].folderId == Some("d2")
    ensures DocsTree() - CascadeFolders(DocsTree(), "d1") == map[]
    ensures files - CascadeFiles(DocsTree(), files, "d1") == map[]
  {
    assert ChildrenOf(DocsTree(), "d1") == {"d2"};
  }

  /**
   * Docs, Docs/2024 and report.pdf inside Docs/2024; deleting Docs removes
   * both folders and the file, and a second delete is a 404.
   */
  method DeleteNestedFolder() returns (deleted: Outcome<string>, again: Outcome<string>, db: Store)
    ensures deleted == Ok(FolderDeleted)
    ensures again == NotFound(FolderNotFound)
    ensures db.folders == map[] && db.files == map[]
  {
    db := BuildDocsTree();
    var upload := UploadRequest(Some(UploadedFile("report.pdf", "application/pdf", 1000, "filemanager/report")), Some("d2"));
    var report := UploadFile(db, upload, "x1", 3, None);
    DocsCascade(db.files);
    deleted := DeleteFolder(db, "d1");
    again := DeleteFolder(db, "d1");
  }

  /** The cascade sets of QuarterTree with one file in "2024" and one in "Q1". */
  lemma QuarterCascade(files: map<Id, File>)
    requires files.Keys == {"x1", "x2"} && files["x1"].folderId == Some("d2") && files["x2"].folderId == Some("d3")
    ensures QuarterTree() - CascadeFolders(QuarterTree(), "d1") == map["d3" := NewFolder("Q1", Some("d2"), 3)]
    ensures files - CascadeFiles(QuarterTree(), files, "d1") == map["x2" := files["x2"]]
  {
    var fs := QuarterTree();
    assert fs["d3"].parent == Some("d2") != Some("d1");
    assert ChildrenOf(fs, "d1") == {"d2"};
    assert (fs - {"d1", "d2"}).Keys == {"d3"};
    assert (files - {"x1"}).Keys == {"x2"};
  }

  /**
   * Docs/2024/Q1 with a file in 2024 and one in Q1: deleting Docs removes
   * Docs, 2024 and the file in 2024, but Q1 and its file remain, and Q1's
   * parent reference names "2024", which no longer exists.
   */
  method DeleteOrphansGrandchild() returns (deleted: Outcome<string>, db: Store)
    ensures deleted == Ok(FolderDeleted)
    ensures db.folders == map["d3" := NewFolder("Q1", Some("d2"), 3)]
    ensures db.files == map["x2" := File("b.txt", "text/plain", 20, "p/b", Some("d3"), 5, 5)]
  {
    db := BuildQuarterTree();
    var inYear := UploadFile(db, UploadRequest(Some(UploadedFile("a.txt", "text/plain", 10, "p/a")), Some("d2")), "x1", 4, None);
    var inQuarter := UploadFile(db, UploadRequest(Some(UploadedFile("b.txt", "text/plain", 20, "p/b")), Some("d3")), "x2", 5, None);
    QuarterCascade(db.files);
    deleted := DeleteFolder(db, "d1");
  }

  /** Updating a folder to its own name and parent succeeds and only moves its update time. */
  method RenameInPlace() returns (same: Outcome<Doc<Folder>>)
    ensures same == Ok(Doc("d1", Folder("Docs", None, 1, 4)))
  {
    var db := BuildDocsTree();
    KeepingNameNeverClashes(db.folders, "d1");
    same := UpdateFolder(db, "d1", FolderBody(Some("Docs"), None), 4);
  }

  /**
   * An update of an absent id whose name clashes with an existing root folder
   * is a 400, not a 404: the duplicate check runs before the lookup.
   */
  method ClashBeforeLookup() returns (clash: Outcome<Doc<Folder>>)
    ensures clash == BadRequest(NameTaken) && Status(clash) == 400
  {
    var db := BuildDocsTree();
    assert SiblingMatch(db.folders, "d1", "Docs", None, Some("zz"));
    clash := UpdateFolder(db, "zz", FolderBody(Some("Docs"), Some("")), 5);
  }

  /** An update of an absent id with a fresh name is a 404. */
  method UpdateMissing() returns (missing: Outcome<Doc<Folder>>)
    ensures missing == NotFound(FolderNotFound) && Status(missing) == 404
  {
    var db := BuildDocsTree();
    assert !SiblingMatch(db.folders, "d1", "Other", None, Some("zz"));
    assert !SiblingMatch(db.folders, "d2", "Other", None, Some("zz"));
    missing := UpdateFolder(db, "zz", FolderBody(Some("Other"), None), 6);
  }

  /** An upload without a file is a 400, and one whose file has an empty name fails validation with a 500. */
  method UploadChecks() returns (none: Outcome<Doc<File>>, unnamed: Outcome<Doc<File>>, db: Store)
    ensures none == BadRequest(NoFileUploaded)
    ensures unnamed == ServerError(UploadFailed, ValidationFailed)
    ensures db.files == map[]
  {
    db := new Store();
    none := UploadFile(db, UploadRequest(None, Some("d1")), "x1", 1, None);
    unnamed := UploadFile(db, UploadRequest(Some(UploadedFile("", "text/plain", 1, "p/x")), None), "x1", 2, None);
  }
}
