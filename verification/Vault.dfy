/** The four guarded writes and the read of the vault service, on a map from paths to contents. */
module Vault {
  import opened Base

  type Files = map<Path, Bytes>

  datatype Call =
    | CreateBytes(path: Path, data: Bytes)
    | WriteBytes(path: Path, data: Bytes, expected: Option<Digest>)
    | DeleteFile(path: Path, expected: Option<Digest>)
    | MoveFile(path: Path, destination: Path, expected: Option<Digest>)
    | ReadBytes(path: Path)

  datatype VaultError = NotFound | AlreadyExists | FileConflict | ExpectedHashRequired | InvalidOperation | IoError

  /** What a call answers: the digest of the bytes now stored (none after a delete), or an error. */
  datatype Reply = Done(sha256: Option<Digest>) | Failed(error: VaultError)

  function At(files: Files, path: Path): Option<Bytes> {
    if path in files then Some(files[path]) else None
  }

  /** The order in which a call on an existing file refuses: missing file, missing hash, wrong hash. */
  function Guard(files: Files, path: Path, expected: Option<Digest>): Option<VaultError> {
    if path !in files then Some(NotFound)
    else if expected.None? then Some(ExpectedHashRequired)
    else if expected.value != Sha256(files[path]) then Some(FileConflict)
    else None
  }

  /** One atomic call on an undisturbed vault. */
  function Perform(call: Call, files: Files): (Reply, Files) {
    match call
    case CreateBytes(path, data) =>
      if path in files then (Failed(AlreadyExists), files)
      else (Done(Some(Sha256(data))), files[path := data])
    case WriteBytes(path, data, expected) =>
      var refused := Guard(files, path, expected);
      if refused.Some? then (Failed(refused.value), files)
      else (Done(Some(Sha256(data))), files[path := data])
    case DeleteFile(path, expected) =>
      var refused := Guard(files, path, expected);
      if refused.Some? then (Failed(refused.value), files)
      else (Done(None), files - {path})
    case MoveFile(path, destination, expected) =>
      if path in files && path == destination then (Failed(InvalidOperation), files)
      else
        var refused := Guard(files, path, expected);
        if refused.Some? then (Failed(refused.value), files)
        else if destination in files then (Failed(AlreadyExists), files)
        else (Done(Some(Sha256(files[path]))), (files - {path})[destination := files[path]])
    case ReadBytes(path) =>
      if path in files then (Done(Some(Sha256(files[path]))), files) else (Failed(NotFound), files)
  }

  /** Which calls fail, and how: for each error exactly the cases it stands for. */
  lemma Refusals(call: Call, files: Files)
    ensures var (path, reply) := (call.path, Perform(call, files).0);
      var guarded := call.WriteBytes? || call.DeleteFile? || call.MoveFile?;
      var onto := call.MoveFile? && path == call.destination;
      && (reply == Failed(NotFound) <==> path !in files && !call.CreateBytes?)
      && (reply == Failed(InvalidOperation) <==> path in files && onto)
      && (reply == Failed(ExpectedHashRequired) <==> path in files && !onto && guarded && call.expected == None)
      && (reply == Failed(FileConflict) <==>
            path in files && !onto && guarded && call.expected.Some? && call.expected != Some(Sha256(files[path])))
      && (reply == Failed(AlreadyExists) <==>
            || (call.CreateBytes? && path in files)
            || (call.MoveFile? && path in files && !onto && call.expected == Some(Sha256(files[path]))
                && call.destination in files))
      && (reply.Failed? ==> Perform(call, files).1 == files && reply.error != IoError)
  {
  }

  /** The bytes at `path` are replaced or removed on the way from `before` to `after`. */
  ghost predicate Lost(before: Files, after: Files, path: Path) {
    path in before && At(after, path) != Some(before[path])
  }

  /** A call replaces or removes only bytes whose digest it was given, and only at its own path. */
  lemma OnlyExpectedBytesLost(call: Call, files: Files, path: Path)
    requires Lost(files, Perform(call, files).1, path)
    ensures call.WriteBytes? || call.DeleteFile? || call.MoveFile?
    ensures path == call.path && call.expected == Some(Sha256(files[path]))
  {
  }
}
