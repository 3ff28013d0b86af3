/** The upload lifecycle of the file system: the hook that admits an upload
    and reserves its quota, the hook that rolls a cancelled upload back, and
    the hook that commits a finished upload as a file record. */
module Filesystem {
  import opened Model

  datatype Option<T> = None | Some(value: T)

  /** The errors the hooks return. `None` in an `Option<Error>` stands for Go's
      `nil`: the hook succeeded. `Other` is an error without a sentinel value:
      one from the storage handler, or the refund failure. */
  datatype Error =
    | ErrFileSizeTooBig
    | ErrIllegalObjectName
    | ErrFileExtensionNotAllowed
    | ErrInsufficientCapacity
    | ErrPathNotExist
    | ErrFileExisted
    | ErrInsertFileRecord
    | Other(message: string)

  /** What the storage handler reports when it cannot remove an object. */
  const DeleteFailedMessage: string := "storage handler failed to delete the object"
  /** The message of the refund failure, "the user's used storage cannot be
      lowered any further". */
  const RefundFailedMessage: string := "无法继续降低用户已用存储"

  /** The header of the file being uploaded. */
  datatype FileHeader = FileHeader(name: string, size: nat, virtualPath: string)

  /** A committed file: its name and size, the folder it lives in and where
      its payload is stored. */
  datatype FileRecord = FileRecord(name: string, size: nat, virtualPath: string, source: string)

  /** The folder part of a joined path: the folder itself when it is empty or
      already ends in '/', and the folder followed by '/' otherwise. */
  function DirPrefix(dir: string): (d: string)
    ensures d == "" || d[|d| - 1] == '/'
    ensures |dir| <= |d| <= |dir| + 1 && d[..|dir|] == dir
    ensures (dir == "" || dir[|dir| - 1] == '/') ==> d == dir
    ensures |d| == |dir| + 1 ==> d[|dir|] == '/'
  {
    if dir == "" || dir[|dir| - 1] == '/' then dir else dir + "/"
  }

  /** The last component of a path: everything after its last '/'. */
  function Base(p: string): string
  {
    if p == "" || p[|p| - 1] == '/' then "" else Base(p[..|p| - 1]) + [p[|p| - 1]]
  }

  /** Everything of a path up to and including its last '/' ("" when it has none). */
  function Parent(p: string): string
  {
    if p == "" || p[|p| - 1] == '/' then p else Parent(p[..|p| - 1])
  }

  /** Appending a '/'-free name to a prefix that is empty or ends in '/' makes
      that name the last component and that prefix the parent. */
  lemma {:induction false} SplitAppended(prefix: string, name: string)
    requires prefix == "" || prefix[|prefix| - 1] == '/'
    requires '/' !in name
    ensures Base(prefix + name) == name && Parent(prefix + name) == prefix
  {
    if name == "" {
      assert prefix + name == prefix;
    } else {
      var p := prefix + name;
      var init := name[..|name| - 1];
      assert p[..|p| - 1] == prefix + init;
      assert p[|p| - 1] == name[|name| - 1];
      assert name == init + [name[|name| - 1]];
      assert '/' !in init by {
        forall i | 0 <= i < |init| ensures init[i] != '/' {
          assert init[i] == name[i];
        }
      }
      SplitAppended(prefix, init);
    }
  }

  /** `path.Join` for a folder and a plain file name: the name placed after
      the folder's prefix. Split at its last '/', the joined path gives back
      the name and the folder's prefix. */
  function Join(dir: string, name: string): (p: string)
    ensures '/' !in name ==> Base(p) == name && Parent(p) == DirPrefix(dir)
  {
    if '/' !in name then SplitAppended(DirPrefix(dir), name); DirPrefix(dir) + name
    else DirPrefix(dir) + name
  }

  /** For names without '/', equal joined paths have equal names and equal
      folder prefixes: the name-clash check on `Join(virtualPath, name)` is a
      check on the (folder prefix, name) pair. */
  lemma JoinSplitsUniquely(dir1: string, name1: string, dir2: string, name2: string)
    requires '/' !in name1 && '/' !in name2
    requires Join(dir1, name1) == Join(dir2, name2)
    ensures name1 == name2 && DirPrefix(dir1) == DirPrefix(dir2)
  {
  }

  /** The record store's invariant: each record is keyed by the path made of
      its folder and its name, and its folder exists. */
  predicate RecordsFiled(files: map<string, FileRecord>, folders: set<string>)
  {
    forall p :: p in files ==> p == Join(files[p].virtualPath, files[p].name) && files[p].virtualPath in folders
  }

  class FileSystem {
    /** The user the uploads are charged to. */
    const user: User
    /** Largest size a single file may have under the user's storage policy. */
    const maxFileSize: nat
    /** The naming rules and the extension policy; their contents are not
        part of this model. */
    const isLegalName: string -> bool
    const isAllowedExtension: string -> bool

    /** Virtual paths of the existing folders. */
    var folders: set<string>
    /** The file records, by full virtual path. */
    var files: map<string, FileRecord>
    /** Paths of the staged payloads present on the storage backend. */
    var tempFiles: set<string>
    /** Every list of paths handed to the storage handler for deletion, in order. */
    ghost var deleteRequests: seq<seq<string>>
    /** Every record whose thumbnail generation was started, in order. */
    ghost var thumbnailJobs: seq<FileRecord>

    /** Each record is filed under the path made of its folder and its name,
        and its folder exists. */
    ghost predicate Valid()
      reads this
    {
      RecordsFiled(files, folders)
    }

    constructor (user: User, maxFileSize: nat, isLegalName: string -> bool, isAllowedExtension: string -> bool,
                 folders: set<string>, files: map<string, FileRecord>, tempFiles: set<string>)
      requires RecordsFiled(files, folders)
      ensures Valid()
      ensures this.user == user && this.maxFileSize == maxFileSize
      ensures this.isLegalName == isLegalName && this.isAllowedExtension == isAllowedExtension
      ensures this.folders == folders && this.files == files && this.tempFiles == tempFiles
      ensures deleteRequests == [] && thumbnailJobs == []
    {
      this.user := user;
      this.maxFileSize := maxFileSize;
      this.isLegalName := isLegalName;
      this.isAllowedExtension := isAllowedExtension;
      this.folders := folders;
      this.files := files;
      this.tempFiles := tempFiles;
      deleteRequests := [];
      thumbnailJobs := [];
    }

    predicate ValidateFileSize(size: nat)
    {
      size <= maxFileSize
    }

    predicate ValidateLegalName(name: string)
    {
      isLegalName(name)
    }

    predicate ValidateExtension(name: string)
    {
      isAllowedExtension(name)
    }

    predicate IsPathExist(virtualPath: string)
      reads this
    {
      virtualPath in folders
    }

    predicate IsFileExist(fullPath: string)
      reads this
    {
      fullPath in files
    }

    /** Checks that `size` bytes fit in the user's remaining capacity and, if
        they do, charges them to the user. */
    method ValidateCapacity(size: nat) returns (ok: bool)
      modifies user
      ensures ok <==> old(user.storage) + size <= user.maxStorage
      ensures user.storage == if ok then old(user.storage) + size else old(user.storage)
    {
      ok := user.IncreaseStorage(size);
    }

    /** The storage handler's delete: it either removes every path given, or
        fails and removes none. Which one happens is outside the model. */
    method HandlerDelete(paths: seq<string>) returns (err: Option<Error>)
      modifies this`tempFiles, this`deleteRequests
      ensures deleteRequests == old(deleteRequests) + [paths]
      ensures err.None? ==> tempFiles == old(tempFiles) - set p | p in paths
      ensures err.Some? ==> err == Some(Other(DeleteFailedMessage)) && tempFiles == old(tempFiles)
    {
      deleteRequests := deleteRequests + [paths];
      var failed: bool :| true;
      if failed {
        err := Some(Other(DeleteFailedMessage));
      } else {
        tempFiles := tempFiles - set p | p in paths;
        err := None;
      }
    }

    /** Inserts the record of an uploaded file under an existing folder. The
        insertion may fail (a database error), in which case nothing is added. */
    method AddFile(file: FileHeader, folder: string, savePath: string) returns (record: FileRecord, failed: bool)
      requires Valid()
      requires folder in folders
      modifies this`files
      ensures Valid()
      ensures record == FileRecord(file.name, file.size, folder, savePath)
      ensures files == if failed then old(files) else old(files)[Join(folder, file.name) := record]
    {
      record := FileRecord(file.name, file.size, folder, savePath);
      failed :| true;
      if !failed {
        files := files[Join(folder, file.name) := record];
      }
    }

    /** The admission hook: the size, name, extension and capacity checks in
        that order; the first one to fail decides the error, and only the
        last one, on success, charges the file's size to the user. */
    method GenericBeforeUpload(file: FileHeader) returns (err: Option<Error>)
      modifies user
      ensures !ValidateFileSize(file.size) ==>
                err == Some(ErrFileSizeTooBig) && user.storage == old(user.storage)
      ensures ValidateFileSize(file.size) && !ValidateLegalName(file.name) ==>
                err == Some(ErrIllegalObjectName) && user.storage == old(user.storage)
      ensures ValidateFileSize(file.size) && ValidateLegalName(file.name) && !ValidateExtension(file.name) ==>
                err == Some(ErrFileExtensionNotAllowed) && user.storage == old(user.storage)
      ensures ValidateFileSize(file.size) && ValidateLegalName(file.name) && ValidateExtension(file.name) ==>
                if old(user.storage) + file.size <= user.maxStorage
                then err == None && user.storage == old(user.storage) + file.size
                else err == Some(ErrInsufficientCapacity) && user.storage == old(user.storage)
      ensures err == None <==>
                ValidateFileSize(file.size) && ValidateLegalName(file.name) && ValidateExtension(file.name) &&
                old(user.storage) + file.size <= user.maxStorage
    {
      if !ValidateFileSize(file.size) {
        return Some(ErrFileSizeTooBig);
      }
      if !ValidateLegalName(file.name) {
        return Some(ErrIllegalObjectName);
      }
      if !ValidateExtension(file.name) {
        return Some(ErrFileExtensionNotAllowed);
      }
      var ok := ValidateCapacity(file.size);
      if !ok {
        return Some(ErrInsufficientCapacity);
      }
      return None;
    }

    /** The rollback hook: deletes the staged payload at `savePath` if it is
        present, stopping with the handler's error if that fails, and then
        gives the file's size back to the user. */
    method GenericAfterUploadCanceled(file: FileHeader, savePath: string) returns (err: Option<Error>)
      modifies this`tempFiles, this`deleteRequests, user
      ensures deleteRequests == if savePath in old(tempFiles) then old(deleteRequests) + [[savePath]] else old(deleteRequests)
      // The payload is still present only when its deletion failed: then the
      // handler's error comes back and the quota is not touched.
      ensures savePath in tempFiles ==>
                savePath in old(tempFiles) && tempFiles == old(tempFiles) &&
                err == Some(Other(DeleteFailedMessage)) && user.storage == old(user.storage)
      // Otherwise the payload is gone (or never was) and the refund decides.
      ensures savePath !in tempFiles ==>
                tempFiles == old(tempFiles) - {savePath} &&
                if file.size <= old(user.storage)
                then err == None && user.storage == old(user.storage) - file.size
                else err == Some(Other(RefundFailedMessage)) && user.storage == old(user.storage)
    {
      if savePath in tempFiles {
        err := HandlerDelete([savePath]);
        assert (set p | p in [savePath]) == {savePath};
        if err.Some? {
          return err;
        }
      }
      var ok := user.DeductionStorage(file.size);
      if !ok {
        return Some(Other(RefundFailedMessage));
      }
      return None;
    }

    /** The commit hook: the target folder must exist and hold no file of the
        same name; then the record is inserted and thumbnail generation for it
        is started without waiting for it. */
    method GenericAfterUpload(file: FileHeader, savePath: string) returns (err: Option<Error>)
      requires Valid()
      modifies this`files, this`thumbnailJobs
      ensures Valid()
      ensures !IsPathExist(file.virtualPath) ==>
                err == Some(ErrPathNotExist) && files == old(files) && thumbnailJobs == old(thumbnailJobs)
      ensures IsPathExist(file.virtualPath) && old(IsFileExist(Join(file.virtualPath, file.name))) ==>
                err == Some(ErrFileExisted) && files == old(files) && thumbnailJobs == old(thumbnailJobs)
      ensures IsPathExist(file.virtualPath) && !old(IsFileExist(Join(file.virtualPath, file.name))) ==>
                var record := FileRecord(file.name, file.size, file.virtualPath, savePath);
                || (err == Some(ErrInsertFileRecord) && files == old(files) && thumbnailJobs == old(thumbnailJobs))
                || (err == None && files == old(files)[Join(file.virtualPath, file.name) := record] &&
                    thumbnailJobs == old(thumbnailJobs) + [record])
      // A success adds exactly one record, and only a success adds one.
      ensures err == None <==> |files| == |old(files)| + 1
      ensures err != None ==> files == old(files)
    {
      if !IsPathExist(file.virtualPath) {
        return Some(ErrPathNotExist);
      }
      var folder := file.virtualPath;
      if IsFileExist(Join(file.virtualPath, file.name)) {
        return Some(ErrFileExisted);
      }
      var record, failed := AddFile(file, folder, savePath);
      if failed {
        return Some(ErrInsertFileRecord);
      }
      thumbnailJobs := thumbnailJobs + [record];
      return None;
    }
  }

  /** An orchestrator that admits an upload and, the transfer having failed,
      rolls it back. After an admission the refund cannot fail, so the only
      way the rollback fails is a failed delete of the staged payload; in
      every other case storage is back where it was before the upload,
      whether or not a payload existed. Neither hook creates a file record. */
  method AdmitThenCancel(fs: FileSystem, file: FileHeader, savePath: string) returns (admitted: Option<Error>, rolledBack: Option<Error>)
    modifies fs`tempFiles, fs`deleteRequests, fs.user
    ensures fs.files == old(fs.files) && fs.thumbnailJobs == old(fs.thumbnailJobs)
    ensures old(fs.Valid()) ==> fs.Valid()
    ensures admitted != None ==> fs.tempFiles == old(fs.tempFiles) && fs.deleteRequests == old(fs.deleteRequests)
    ensures admitted == None ==>
              fs.deleteRequests == if savePath in old(fs.tempFiles) then old(fs.deleteRequests) + [[savePath]] else old(fs.deleteRequests)
    ensures admitted == None && rolledBack == None ==> fs.tempFiles == old(fs.tempFiles) - {savePath}
    ensures admitted == None && rolledBack != None ==> fs.tempFiles == old(fs.tempFiles)
    ensures admitted == None <==>
              fs.ValidateFileSize(file.size) && fs.ValidateLegalName(file.name) && fs.ValidateExtension(file.name) &&
              old(fs.user.storage) + file.size <= fs.user.maxStorage
    ensures admitted != None ==> rolledBack == None && fs.user.storage == old(fs.user.storage)
    ensures admitted == None && rolledBack == None ==>
              fs.user.storage == old(fs.user.storage) && savePath !in fs.tempFiles
    ensures admitted == None && savePath !in old(fs.tempFiles) ==>
              rolledBack == None && fs.user.storage == old(fs.user.storage)
    ensures admitted == None && rolledBack != None ==>
              rolledBack == Some(Other(DeleteFailedMessage)) && savePath in fs.tempFiles &&
              fs.user.storage == old(fs.user.storage) + file.size
  {
    admitted := fs.GenericBeforeUpload(file);
    rolledBack := None;
    if admitted == None {
      rolledBack := fs.GenericAfterUploadCanceled(file, savePath);
    }
  }

  /** Admission for a user allowed 1000 bytes with 900 used. */
  method AdmissionScenario()
  {
    var owner := new User(900, 1000);
    var fs := new FileSystem(owner, 500, _ => true, _ => true, {"/docs"}, map[], {});

    // 50 more fit: admitted, 950 used.
    var err := fs.GenericBeforeUpload(FileHeader("a.txt", 50, "/docs"));
    assert err == None && owner.storage == 950;

    // 100 more do not fit: refused, still 950.
    err := fs.GenericBeforeUpload(FileHeader("b.txt", 100, "/docs"));
    assert err == Some(ErrInsufficientCapacity) && owner.storage == 950;

    // Over the single-file limit: refused before the capacity check.
    err := fs.GenericBeforeUpload(FileHeader("c.txt", 600, "/docs"));
    assert err == Some(ErrFileSizeTooBig) && owner.storage == 950;
  }

  /** An upload admitted at 950 of 1000 bytes whose transfer fails: if the
      staged payload is deleted, the counter is back at 950. */
  method RollbackScenario()
  {
    var owner := new User(950, 1000);
    var fs := new FileSystem(owner, 500, _ => true, _ => true, {"/docs"}, map[], {"/tmp/upload-1"});
    var file := FileHeader("a.txt", 50, "/docs");
    var err := fs.GenericBeforeUpload(file);
    assert err == None && owner.storage == 1000;
    err := fs.GenericAfterUploadCanceled(file, "/tmp/upload-1");
    assert err == None ==> owner.storage == 950 && "/tmp/upload-1" !in fs.tempFiles;
    assert err != None ==> owner.storage == 1000 && "/tmp/upload-1" in fs.tempFiles;
  }

  /** An admission and rollback, then commits: into a missing folder none is made; into "/docs" a record
      "/docs/a.txt" may be made, and then a second one of that name is refused. */
  method CommitScenario()
  {
    var owner := new User(0, 1000);
    var fs := new FileSystem(owner, 500, _ => true, _ => true, {"/docs"}, map[], {});
    var file := FileHeader("a.txt", 50, "/docs");

    // An admission rolled back first leaves no record and keeps the invariant.
    var admitted, rolledBack := AdmitThenCancel(fs, file, "/tmp/upload-0");
    assert admitted == None && rolledBack == None && owner.storage == 0 && fs.files == map[];

    assert !fs.IsPathExist("/gone");
    var err := fs.GenericAfterUpload(FileHeader("d.txt", 10, "/gone"), "/tmp/upload-2");
    assert err == Some(ErrPathNotExist) && fs.files == map[];

    assert fs.IsPathExist("/docs") && !fs.IsFileExist(Join("/docs", "a.txt"));
    err := fs.GenericAfterUpload(file, "/tmp/upload-3");
    if err == None {
      assert fs.IsFileExist(Join("/docs", "a.txt"));
      err := fs.GenericAfterUpload(file, "/tmp/upload-4");
      assert err == Some(ErrFileExisted);
    }
  }
}
