# File manager backend and file card, in Dafny

This project models the core of a small file manager: an Express/Mongoose
backend that stores folders and uploaded files, and the React card that
displays one file. It covers:

- the folder handlers: create, list, fetch, delete and update;
- the upload handler;
- the two document schemas, Folder and File;
- the card's string helpers: the shortened name, the icon choice and the
  type label.

The two collections are one `Database.Store` object with a `map` field per
collection. Each handler is a method that takes the store, changes its maps
and returns an `Http.Outcome`, which stands for the status code and the JSON
body. Ids, timestamps and faults injected by the database are parameters.

Files and modules:

| file | module | what it holds |
|---|---|---|
| `wrappers.dfy` | `Wrappers` | `Option` |
| `models.dfy` | `Models` | the Folder and File records and their `required` validation |
| `http.dfy` | `Http` | outcomes, JavaScript `!x` and `x \|\| null` |
| `database.dfy` | `Database` | the store, its queries and writes, and lemmas about sibling uniqueness, the delete cascade and newest-first listings |
| `folder_controller.dfy` | `FolderController` | the five folder handlers |
| `file_controller.dfy` | `FileController` | the upload handler |
| `file_card.dfy` | `FileCard` | `truncateFileName`, `getFileIcon`, the type label and the JavaScript string operations they use |
| `scenarios.dfy` | `Scenarios` | request sequences on an empty store with concrete results |

Behaviour the model keeps on purpose, because the code does it this way:

- **Delete goes one level deep.** The code comment says "recursively", but
  `deleteFolder` removes only the folder, its direct subfolders and their
  files.
  - Grandchildren survive, and their `parent` now names a deleted folder
    (`CascadeOrphansGrandchildren`, `Scenarios.DeleteOrphansGrandchild`).
- **Update checks for a clash before looking up the folder.** A clashing
  name on an unknown id is therefore a 400, not a 404
  (`Scenarios.ClashBeforeLookup`).
- **Empty fields are falsy.** An empty `name` counts as missing. An empty
  `parentId` or `folderId` means root or unfiled.
- **Upload validation can fail.** Mongoose's `required` rejects an empty
  string, so an upload whose file has an empty name, type or path fails on
  save. The result is a 500.
- **Long names can get longer.** `truncateFileName` can return more
  characters than `maxLength`, and a name without a dot gets four extra
  characters (`TruncateExceedsMax`, `TruncateNoDot`).
- **Types without a '/' break a wide list row.** Only a list row on a larger
  screen has a type column. There, for a MIME type without '/',
  `file.type.split('/')[1]` is `undefined` and `toUpperCase` throws
  (`FileCard.TypeColumn`). The grid card and a list row on a small screen
  never evaluate the expression.

## Model

| member | source | states |
|---|---|---|
| Http.OrNull | backend/controllers/folderController.js:16 | `x \|\| null` is null exactly when the field is absent or empty; otherwise it is the field itself, which is non-empty |
| Models.MissingFilePaths | backend/models/File.js:3-19 | the paths reported missing are empty exactly when the File schema accepts the record; each of name, type and path is listed iff that field is empty; size is never listed |
| Database.InsertKeepsUnique | backend/controllers/folderController.js:13-28 | saving a folder whose (name, parent) no other folder has keeps (name, parent) unique across the collection |
| Database.RemoveKeepsUnique | backend/controllers/folderController.js:82-93 | deleting any set of folders keeps (name, parent) unique |
| Database.KeepingNameNeverClashes | backend/controllers/folderController.js:112-117 | with unique siblings, a folder's own name and parent never clash with another folder once its own id is excluded |
| Database.FilesInStep | backend/controllers/folderController.js:83-89 | deleting the files of one more owner after those of a set of owners equals deleting the files of the enlarged set |
| Database.CascadeComplete | backend/controllers/folderController.js:82-93 | removing the direct subfolders and then the target removes exactly the target plus its children; removing the files of those owners removes exactly the cascade's files; uniqueness and schema validity survive |
| Database.CascadeOrphansGrandchildren | backend/controllers/folderController.js:85-90 | a grandchild of the deleted folder survives unchanged with all its files, while its parent is gone |
| Database.CascadeFilesExact | backend/controllers/folderController.js:83-89 | a file is deleted iff its folder is the target or a folder whose parent is the target |
| Database.IdsOfAppend | backend/controllers/folderController.js:43-46 | listing one more document adds exactly its id to the listed ids |
| Database.NewestExists | backend/controllers/folderController.js:45 | every non-empty set of stored folders has a member no other member was created after |
| Database.AppendDistinct | backend/controllers/folderController.js:43-46 | appending an unlisted id keeps listed ids distinct |
| Database.AppendNewest | backend/controllers/folderController.js:45 | appending a newest pending folder keeps the listing newest first, and no folder left pending is newer than a listed one |
| Database.AppendRecord | backend/controllers/folderController.js:43-46 | appending a stored folder with its record keeps every listed record equal to the stored one |
| Database.ListNext | backend/controllers/folderController.js:43-46 | one step of the newest-first listing keeps the listing invariant, with one id fewer pending |
| Database.Store.FindFolder | backend/controllers/folderController.js:14-17 | `findOne({name, parent, _id $ne})` finds nothing exactly when no matching folder exists, and whatever it finds matches |
| Database.Store.FindFolderById | backend/controllers/folderController.js:59 | `findById` gives nothing iff the id is absent, otherwise that id's stored record |
| Database.Store.FindChildren | backend/controllers/folderController.js:86 | `find({parent: id})` gives exactly the folders whose parent is the id |
| Database.Store.FindAllNewestFirst | backend/controllers/folderController.js:43-45 | `find().sort({createdAt: -1})` lists every stored folder exactly once with its record, newest first |
| Database.Store.InsertFolder | backend/controllers/folderController.js:23-28 | `save` of a new folder adds exactly that record and leaves files unchanged |
| Database.Store.UpdateFolderById | backend/controllers/folderController.js:123-130 | `findByIdAndUpdate(..., {new: true})` gives nothing and changes nothing for an absent id; otherwise it overwrites name and parent, moves updatedAt, keeps createdAt and returns the new record |
| Database.Store.DeleteFolderById | backend/controllers/folderController.js:89 | `findByIdAndDelete` removes that folder and nothing else |
| Database.Store.DeleteFilesIn | backend/controllers/folderController.js:83 | `File.deleteMany({folderId})` removes exactly the files owned by that folder |
| Database.Store.SaveFile | backend/controllers/fileController.js:25 | `save` rejects a record the File schema refuses before writing; a database fault also writes nothing; otherwise the record is added |
| FolderController.CreateFolder | backend/controllers/folderController.js:5-38 | on a missing or empty name: 400, nothing changes. On an existing sibling with that name (a missing or empty parentId means root): 400, nothing changes. Otherwise: 201 with exactly one new folder added; sibling uniqueness and validity are preserved |
| FolderController.GetFolders | backend/controllers/folderController.js:41-54 | 200 with every folder exactly once, each with its stored record, newest first |
| FolderController.GetFolderById | backend/controllers/folderController.js:57-72 | 404 for an absent id, otherwise 200 with that folder's record |
| FolderController.DeleteFolder | backend/controllers/folderController.js:75-103 | 404 with nothing changed for an absent id. Otherwise 200, and the store loses exactly the target, its direct subfolders and the files of those folders; uniqueness and validity are preserved |
| FolderController.UpdateFolder | backend/controllers/folderController.js:106-142 | in order: empty name is 400; a clash with a sibling other than this id is 400; an absent id is 404; each leaves the store unchanged. Otherwise 200 with the renamed record, which is the only change; uniqueness and validity are preserved |
| FileController.FileRecord | backend/controllers/fileController.js:17-23 | the record copies originalname, mimetype, size and path; folderId is null iff the field is absent or empty, otherwise it is that field |
| FileController.UploadFile | backend/controllers/fileController.js:3-36 | no file: 400. Failed validation, or a database fault: 500 "Error uploading file" with the error message. Otherwise: 201 with exactly that record added. Folders never change, and no failing path adds a file |
| FileCard.LastIndexOf | src/components/FileCard.jsx:42 | the position of the last occurrence of a character, none iff absent |
| FileCard.IndexOf | src/components/FileCard.jsx:119 | the position of the first occurrence of a character, none iff absent |
| FileCard.Extension | src/components/FileCard.jsx:42 | `split('.').pop()` has no dot; it is the whole name when there is no dot, otherwise the suffix after the last dot |
| FileCard.SliceTo | src/components/FileCard.jsx:43-44 | `slice(0, end)` is a prefix, of length `end` clamped to the string, or counted from the end when `end` is negative |
| FileCard.Stem | src/components/FileCard.jsx:43 | for a dotted name, stem + "." + extension is the name; for one without a dot the stem is empty |
| FileCard.TruncateFileName | src/components/FileCard.jsx:40-46 | a name that fits is returned unchanged; a longer one always ends with "." and its extension |
| FileCard.TruncateShape | src/components/FileCard.jsx:40-46 | with maxLength ≥ 3 a long name becomes the first maxLength−3 characters of its stem, "...", "." and the extension |
| FileCard.TruncateShapeSmallMax | src/components/FileCard.jsx:44 | with maxLength < 3 the negative slice end drops characters from the end of the stem instead |
| FileCard.TruncateDotted | src/components/FileCard.jsx:40-46 | for stem.ext with a dot-free extension, the result is the stem's prefix, "....", then ext |
| FileCard.ExtensionOfDotted | src/components/FileCard.jsx:42 | the extension of stem + "." + ext is ext when ext has no dot |
| FileCard.TruncateNoDot | src/components/FileCard.jsx:42-45 | a long name without a dot becomes "...." + name, four characters longer |
| FileCard.TruncateLength | src/components/FileCard.jsx:40-46 | the length of a truncated name in terms of stem, maximum and extension |
| FileCard.TruncateExceedsMax | src/components/FileCard.jsx:40-46 | when the stem is not shorter than maxLength−3, the result has maxLength + 1 + extension-length characters, more than maxLength |
| FileCard.FileIcon | src/components/FileCard.jsx:16-20 | image icon iff the type starts with "image/"; pdf icon iff it is exactly "application/pdf"; the generic icon iff neither |
| FileCard.ToUpper | src/components/FileCard.jsx:119 | same length, each character upper-cased, no lower-case ASCII letter left |
| FileCard.Subtype | src/components/FileCard.jsx:119 | `split('/')[1]` is undefined iff the type has no '/'; otherwise it contains no '/' |
| FileCard.TypeLabel | src/components/FileCard.jsx:119 | the label is undefined iff the type has no '/'; otherwise it is the upper-cased second segment |
| FileCard.SubtypeOfParts | src/components/FileCard.jsx:119 | for "main/sub" or "main/sub/...", `split('/')[1]` is exactly sub |
| FileCard.TypeColumn | src/components/FileCard.jsx:63-119 | there is no type column exactly in the grid view and on a small screen; a wide list row throws exactly when the type has no '/'; otherwise the column shows the type label |
| FileCard.IndexOfAfter | src/components/FileCard.jsx:119 | the first '/' of main + "/" + rest is right after main, when main has none |
| FileCard.TypeLabelOfParts | src/components/FileCard.jsx:119 | "main/sub" or "main/sub/..." is labelled exactly with sub upper-cased |
| FileCard.NameMaxLength | src/components/FileCard.jsx:63-102 | a list row uses 15 on small screens and 25 otherwise; every other view uses the default 20 |
| FileCard.ShortNamesShownInFull | src/components/FileCard.jsx:102 | a name of at most 15 characters is shown in full in every view |
| Scenarios.DuplicateRootFolder | backend/controllers/folderController.js:13-21 | creating root "Docs" twice gives 201 then 400 "Folder already exists"; an empty parentId counts as root |
| Scenarios.BuildDocsTree | backend/controllers/folderController.js:23-30 | Docs and Docs/2024 created on an empty store give exactly those two records |
| Scenarios.BuildQuarterTree | backend/controllers/folderController.js:23-30 | adding Docs/2024/Q1 gives exactly three records |
| Scenarios.DocsCascade | backend/controllers/folderController.js:82-93 | in Docs/2024 with a file in 2024, deleting Docs leaves no folder and no file |
| Scenarios.DeleteNestedFolder | backend/controllers/folderController.js:75-95 | deleting Docs removes 2024 and report.pdf too; a second delete is 404 |
| Scenarios.QuarterCascade | backend/controllers/folderController.js:82-93 | in Docs/2024/Q1, deleting Docs leaves Q1 and Q1's file only |
| Scenarios.DeleteOrphansGrandchild | backend/controllers/folderController.js:85-90 | after the delete, Q1 and its file remain exactly as stored, with the dangling parent "d2" |
| Scenarios.RenameInPlace | backend/controllers/folderController.js:112-135 | updating a folder to its own name and parent is 200, and only updatedAt moves |
| Scenarios.ClashBeforeLookup | backend/controllers/folderController.js:112-121 | an unknown id with a clashing root name is 400 "Folder name already exists", not 404 |
| Scenarios.UpdateMissing | backend/controllers/folderController.js:123-134 | an unknown id with a free name is 404 |
| Scenarios.UploadChecks | backend/controllers/fileController.js:5-36 | no file is 400; a file with an empty name is a 500 validation failure, and nothing is stored |

## Left out

- The 500 paths of the folder handlers, such as a database error or a cast error on a malformed id, are left out. The upload handler's 500 path is modelled through the `fault` parameter.
- `populate('parent')` in getFolders and getFolderById is left out: the model returns the stored parent id rather than the embedded parent document. Mongoose shows a parent that no longer exists as `null`, so after the one-level cascade an orphaned grandchild such as Q1 appears in the listing as a root folder, while the store still holds its old parent id.
- The `details` field of the upload's 500 body is not modelled: in development it carries the error's stack trace.
- `console.log` and `console.error` logging is not modelled, because it does not affect responses or state.
- Mongoose's exact validation message text is not modelled: the model returns a fixed `ValidationFailed` string.
- The timestamp and id source is not modelled: the clock and ObjectId generation are parameters (`now`, `newId`).
- FileController.UploadFile requires the file to be at most 10 MB. Multer enforces this limit in backend/routes/fileRoutes.js:28-34 before the handler runs. The multer and Cloudinary middleware are not modelled.
- `getFiles` and `deleteFile` are not modelled: backend/routes/fileRoutes.js imports them, but backend/controllers/fileController.js does not define them.
- No check that a parent or folderId refers to an existing folder, and no cycle check: the code does neither.
- Request bodies whose fields are not strings (numbers, arrays, objects) are not modelled: a body field is absent or a string.
- FileCard.ToUpper covers ASCII only. JavaScript's full Unicode case mapping is not modelled.
- String lengths count Dafny characters, not UTF-16 code units.
- `formatFileSize` is left out because it uses floating point.
- `formatDate` is left out because it depends on the locale and on dates.
- Download, delete-click handling, hover state, layout, animation and icon font sizes are left out as UI only.
- Concurrency is not modelled: requests run one at a time, with no interleaving between a handler's awaits.
- The server set-up, the routes wiring, the other React components and the build configuration are not part of this model.
