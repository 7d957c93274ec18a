/** The upload handler of backend/controllers/fileController.js. */
module FileController {
  import opened Wrappers
  import opened Models
  import opened Http
  import opened Database

  /** What multer attaches as `req.file` once the storage backend has kept the bytes. */
  datatype UploadedFile = UploadedFile(originalname: string, mimetype: string, size: nat, path: string)

  /** A multipart upload request: the optional file and the optional `folderId` form field. */
  datatype UploadRequest = UploadRequest(file: Option<UploadedFile>, folderId: Option<string>)

  /** The route's multer limit: at most 10 MB per file (backend/routes/fileRoutes.js). */
  const MaxUploadBytes: nat := 10 * 1024 * 1024

  const NoFileUploaded: string := "No file uploaded"
  const UploadFailed: string := "Error uploading file"

  /** The record `uploadFile` builds from the upload and the folderId field. */
  function FileRecord(u: UploadedFile, folderId: Option<string>, now: nat): (f: File)
    ensures f.name == u.originalname && f.mimeType == u.mimetype && f.size == u.size && f.path == u.path
    ensures f.folderId.None? <==> Falsy(folderId)
    ensures f.folderId.Some? ==> f.folderId == folderId
  {
    File(u.originalname, u.mimetype, u.size, u.path, OrNull(folderId), now, now)
  }

  /**
   * POST /api/files/upload. Without a file: 400 and no record. Otherwise the
   * record copies the upload's fields and the folderId (null when absent or
   * empty); a failed save (schema validation or a database `fault`) gives 500
   * with the error message and adds nothing; a successful one adds exactly
   * that record. Folders are never touched, and the folder id is not checked.
   */
  method UploadFile(db: Store, req: UploadRequest, newId: Id, now: nat, fault: Option<string>)
    returns (out: Outcome<Doc<File>>)
    requires newId !in db.files
    requires req.file.Some? ==> req.file.value.size <= MaxUploadBytes
    modifies db
    ensures db.folders == old(db.folders)
    ensures req.file.None? ==> out == BadRequest(NoFileUploaded) && db.files == old(db.files)
    ensures req.file.Some? && !FileValid(FileRecord(req.file.value, req.folderId, now)) ==>
      out == ServerError(UploadFailed, ValidationFailed) && db.files == old(db.files)
    ensures req.file.Some? && FileValid(FileRecord(req.file.value, req.folderId, now)) && fault.Some? ==>
      out == ServerError(UploadFailed, fault.value) && db.files == old(db.files)
    ensures req.file.Some? && FileValid(FileRecord(req.file.value, req.folderId, now)) && fault.None? ==>
      && out == Created(Doc(newId, FileRecord(req.file.value, req.folderId, now)))
      && db.files == old(db.files)[newId := FileRecord(req.file.value, req.folderId, now)]
    ensures old(FilesValid(db.files)) ==> FilesValid(db.files)
  {
    if req.file.None? {
      return BadRequest(NoFileUploaded);
    }
    var f := FileRecord(req.file.value, req.folderId, now);
    var err := db.SaveFile(newId, f, fault);
    if err.Some? {
      return ServerError(UploadFailed, err.value);
    }
    return Created(Doc(newId, f));
  }
}
