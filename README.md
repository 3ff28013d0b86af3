# Cloudreve upload hooks, modelled in Dafny

This project models the upload lifecycle of Cloudreve's file system
(`pkg/filesystem/hooks.go`) and two small helpers from its utility package
(`pkg/util/common.go`), and proves what each promises.

- **Admission** (`GenericBeforeUpload`) runs four checks in a fixed order:
  size, name, extension, capacity. It returns the first failure. Only the
  last check has a side effect: it charges the file's size to the user.
- **Rollback** (`GenericAfterUploadCanceled`) deletes the staged payload
  through the storage handler, but only if the payload is present. A failed
  delete is returned at once and the quota is left alone. Otherwise the
  file's size is given back to the user, and a refund that would go below
  zero is an error.
- **Commit** (`GenericAfterUpload`) requires the target folder to exist and
  to hold no file of the same name. It then inserts the file record and
  starts thumbnail generation without waiting for it.
- `ContainsUint` is a linear membership search. `RandStringRunes(n)` fills an
  `n`-character buffer from a fixed 62-character alphabet.

Files:

- `util.dfy`: module `Util`, the two helpers.
- `model.dfy`: module `Model`, class `User`, the quota counter the hooks
  charge and refund.
- `filesystem.dfy`: module `Filesystem`, class `FileSystem`, the three hooks
  and their collaborators.

The `FileSystem` class holds the state the hooks read and change:

- the user (used storage and allowance);
- the single-file size limit;
- the naming and extension rules, as uninterpreted predicates fixed at construction;
- the set of folder paths;
- the file records, keyed by full path;
- the staged payloads present on the storage backend;
- two ghost logs: the delete requests sent to the storage handler, and the
  records whose thumbnail generation was started.

Its invariant `Valid()` says that each record is filed under
`Join(folder, name)` and that its folder exists. The commit hook preserves
it. Records are keyed by that path, so no two records share one.

For names without '/', `Join` is proved to split back at its last '/' into
the name and the folder's prefix (the folder, with a '/' added unless it
is empty or already ends in one). So the
name-clash check is a check on the (folder prefix, name) pair. The prefix
does not determine the folder itself: "/docs" and "/docs/" have the same
prefix.

The foreign calls, `Handler.Delete` and `AddFile`, are nondeterministic
methods: each may succeed or fail. The hooks' postconditions cover every
outcome. A Go `error` is an `Option<Error>`, where `None` stands for `nil`.
Hook parameters that the source reads from the request context (the file
header and the save path) are explicit parameters here.

`AdmissionScenario`, `RollbackScenario` and `CommitScenario` replay worked
examples for a user allowed 1000 bytes:

- 900 + 50 is admitted, and 950 + 100 is refused;
- a rollback after a successful delete returns 1000 to 950;
- a commit into a missing folder creates no record;
- a second commit of the same name is refused.

The rules behind the four admission checks live in files that are not part
of this model. The model uses these rules:

- size: `size <= maxFileSize`;
- capacity: `used + size <= allowance`;
- refund: allowed only when `size <= used`.

Name and extension legality are left uninterpreted.

## Model

| member | source | states |
|---|---|---|
| `Util.ContainsUint` | pkg/util/common.go:19-26 | returns true exactly when `e` occurs in `s` (equivalently, at some index); an empty slice gives false; the loop keeps "no element before `i` equals `e`" and returns at the first match |
| `Util.RandStringRunes` | pkg/util/common.go:8-16 | the result has exactly `n` characters, each taken from `letterRunes` at an index in range, hence each one of 0-9, a-z, A-Z |
| `Util.LetterRunesAreAlphanumeric` | pkg/util/common.go:9 | `letterRunes` has 62 characters and a character is in it if and only if it is a digit, a lower-case or an upper-case Latin letter |
| `Filesystem.Join` | pkg/filesystem/hooks.go:68-71 | for a name without '/', the joined path's last component (after its last '/') is the name, and everything up to that '/' is the folder's prefix |
| `Filesystem.SplitAppended` | pkg/filesystem/hooks.go:68-71 | a '/'-free name appended to a prefix that is empty or ends in '/' is the last component of the result, and the prefix is its parent |
| `Filesystem.DirPrefix` | pkg/filesystem/hooks.go:68-71 | the folder's prefix is empty or ends in '/'; it is the folder itself when the folder is empty or already ends in '/', and otherwise the folder with one '/' added |
| `Filesystem.JoinSplitsUniquely` | pkg/filesystem/hooks.go:68-73 | for names without '/', equal joined paths have equal names and equal folder prefixes, so the name-clash check is a check on the (folder prefix, name) pair |
| `Model.User.IncreaseStorage` | pkg/filesystem/hooks.go:29-32 | succeeds exactly when the size fits in the remaining allowance, and then charges exactly that size; on failure storage is unchanged |
| `Model.User.DeductionStorage` | pkg/filesystem/hooks.go:49-52 | succeeds exactly when the size does not exceed the charged storage, and then lowers it by exactly that size; on failure storage is unchanged |
| `Filesystem.FileSystem.ValidateCapacity` | pkg/filesystem/hooks.go:29-32 | the capacity check and the deduction in one step: true exactly when the size fits, in which case storage grows by the size |
| `Filesystem.FileSystem.HandlerDelete` | pkg/filesystem/hooks.go:43-46 | the request is logged; on success every given path is removed from the backend, on failure an error comes back and nothing is removed |
| `Filesystem.FileSystem.AddFile` | pkg/filesystem/hooks.go:76-79 | builds the record from the header, the folder and the save path; on success it is added under `Join(folder, name)`, on failure the records are unchanged; the invariant is kept |
| `Filesystem.FileSystem.GenericBeforeUpload` | pkg/filesystem/hooks.go:11-34 | the first failing check in the order size, name, extension, capacity decides the error; a size, name or extension failure leaves storage unchanged; nil exactly when all four pass, and then storage has grown by exactly the file size |
| `Filesystem.FileSystem.GenericAfterUploadCanceled` | pkg/filesystem/hooks.go:37-54 | delete is requested for the save path only if that payload exists; a failed delete returns its error with the payload and storage untouched; otherwise the payload is gone and storage drops by the file size, or the refund error comes back with storage unchanged |
| `Filesystem.FileSystem.GenericAfterUpload` | pkg/filesystem/hooks.go:57-87 | a missing folder gives `ErrPathNotExist`, a name clash `ErrFileExisted`, a failed insert `ErrInsertFileRecord`, each with no record added and no thumbnail job; nil exactly when one record is added under `Join(path, name)`, and then one thumbnail job is queued for it; the record invariant is kept |
| `Filesystem.AdmitThenCancel` | pkg/filesystem/hooks.go:29-53 | admission succeeds exactly when all four checks pass; no file record and no thumbnail job is created, and the record invariant is kept; a refused admission sends no delete request and touches no staged payload; after an admission, delete is requested for the save path only if that payload exists, a successful rollback removes exactly that payload, and a failed one removes none; a failed admission charges nothing; after a successful admission the refund cannot fail, so a rollback with no payload always succeeds and restores storage; a successful rollback restores storage and leaves the payload deleted; a failed rollback is a failed delete, with the payload still present and storage still raised by the file size |

## Left out

- The collaborator predicates have no contracts of their own, because each is a one-line definition the hooks' ensures use directly:
  - `FileSystem.ValidateFileSize` (hooks.go:15) is `size <= maxFileSize`;
  - `FileSystem.ValidateLegalName` (hooks.go:20) and `FileSystem.ValidateExtension` (hooks.go:25) apply the uninterpreted naming and extension rules;
  - `FileSystem.IsPathExist` (hooks.go:62) is membership of the virtual path in `folders`;
  - `FileSystem.IsFileExist` (hooks.go:68) is membership of the full path in the keys of `files`. The name-clash check is therefore "`Join(virtualPath, name)` is already the key of a record".
- Request context: the `context.Context` lookups and the run-time type assertions are replaced by explicit parameters (file header, save path).
- Thumbnails: the `go fs.GenerateThumbnail` goroutine becomes an entry appended to the ghost `thumbnailJobs` log. Its work and its concurrency are not modelled.
- Filesystem.FileSystem.HandlerDelete: the storage backend's actual error is replaced by one fixed message, and a partial delete of several paths is not modelled (the hook only ever passes one path).
- Filesystem.FileSystem.AddFile: the database insertion is an abstract set-or-fail step, and its failure causes are not modelled.
- `util.Exists`: the disk check is modelled as membership in the set of staged payloads.
- Rule sources, not modelled: the name legality and extension rules are uninterpreted predicates, and the storage policy's size limit is a single number.
- Atomicity: quota check-and-deduct is not atomic across concurrent uploads; the model is sequential.
- Filesystem.Join: `path.Join` normalisation is not modelled, in the folder or in the name. "." and ".." components and repeated slashes stay as they are ("/docs//" joined with "a" gives "/docs//a"). An empty name keeps the added '/' (`Join("/docs", "")` is "/docs/", where `path.Join` gives "/docs").
- Integers are unbounded: sizes are `uint64` in Go, so the model does not capture wrap-around in `used + size`. `ContainsUint`'s elements are 64-bit `uint` values.
- Util.RandStringRunes: the index is an arbitrary choice in range, and the distribution of `math/rand` is not modelled. A negative `n`, which makes `make` panic in Go, is excluded by the `nat` parameter.
- Util.ContainsUint: the slice is an immutable sequence, so "does not modify `s`" holds by construction and is not stated.
- Hook ordering: the source does not guard the order or the number of hook calls (a second rollback, or a rollback after a commit), and neither does the model. No upload state machine is imposed.
