/**
 * The two document shapes of the backend (backend/models/Folder.js and
 * backend/models/File.js) and the schema validation Mongoose runs on save.
 */
module Models {
  import opened Wrappers

  /** Document ids are opaque; the database hands out fresh ones. */
  type Id = string

  /**
   * A folder document. `parent == None` is the schema default null and marks
   * a root-level folder; `Some(p)` is a reference to a folder id that nothing
   * checks for existence.
   */
  datatype Folder = Folder(name: string, parent: Option<Id>, createdAt: nat, updatedAt: nat)

  /**
   * A file document: upload metadata, the storage path, and the owning folder
   * (`None` is the schema default null: the file is unfiled).
   */
  datatype File = File(name: string, mimeType: string, size: nat, path: string,
                       folderId: Option<Id>, createdAt: nat, updatedAt: nat)

  /** A stored document together with its id, as the JSON responses show it. */
  datatype Doc<T> = Doc(id: Id, rec: T)

  /** Mongoose's `required` check on a String path: the value is present and non-empty. */
  predicate RequiredString(s: string) {
    s != ""
  }

  predicate FolderValid(f: Folder) {
    RequiredString(f.name)
  }

  predicate FileValid(f: File) {
    RequiredString(f.name) && RequiredString(f.mimeType) && RequiredString(f.path)
  }

  /**
   * The paths the File schema reports as missing, in schema order; `size` is a
   * Number and is always present.
   */
  function MissingFilePaths(f: File): (missing: seq<string>)
    ensures missing == [] <==> FileValid(f)
    ensures "name" in missing <==> f.name == ""
    ensures "type" in missing <==> f.mimeType == ""
    ensures "path" in missing <==> f.path == ""
    ensures |missing| <= 3
    ensures forall p :: p in missing ==> p in ["name", "type", "path"]
  {
    (if f.name == "" then ["name"] else [])
    + (if f.mimeType == "" then ["type"] else [])
    + (if f.path == "" then ["path"] else [])
  }

  /** Every stored folder satisfies the Folder schema. */
  ghost predicate FoldersValid(fs: map<Id, Folder>) {
    forall k :: k in fs ==> FolderValid(fs[k])
  }

  /** Every stored file satisfies the File schema. */
  ghost predicate FilesValid(fs: map<Id, File>) {
    forall k :: k in fs ==> FileValid(fs[k])
  }

  /** A new folder document stamped at `now`. */
  function NewFolder(name: string, parent: Option<Id>, now: nat): Folder {
    Folder(name, parent, now, now)
  }

  /** The result of overwriting a folder's name and parent at `now`; createdAt is kept. */
  function Renamed(f: Folder, name: string, parent: Option<Id>, now: nat): Folder {
    f.(name := name, parent := parent, updatedAt := now)
  }
}
