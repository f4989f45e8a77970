/** The Python exceptions the backup utility raises or lets through, and the
    `Option`/`Result` wrappers the model uses in place of `None` and of
    raising. */
module Exceptions {

  /** Which `ValueError` message was raised. */
  datatype ValueReason =
    | NotTarGz                // "File must be a .tar.gz file"
    | NotEnc                  // "The file does not have the expected .enc extension."
    | CloudConfigMissing      // "Cloud provider and bucket name are required ..."
    | UnsupportedStorage      // "Unsupported storage type. Choose 'local' or 'cloud'."
    | UnsupportedProvider     // "Unsupported cloud provider."
    | UnsupportedBackupFormat // "Unsupported backup file format. ..."

  /** The message prefix a `RuntimeError` wrapper carries. */
  datatype Context =
    | BackupFailed      // "Backup failed: ..." (the dump tool exited non-zero)
    | BackupError       // "An error occurred during backup: ..."
    | CloudUploadError  // "Error uploading to cloud: ..."
    | RestoreFailed     // "Restore failed: ..." (the restore tool exited non-zero)
    | RestoreError      // "An error occurred during restore: ..."
    | LocalStoreError   // "Error storing backup locally: ..."

  datatype Exn =
    | ValueError(reason: ValueReason)
    | FileNotFound(path: string)
    | IsADirectory(path: string)
    | FileExists(path: string)
    | DestinationExists(path: string)   // shutil.Error: destination already exists
    | MoveIntoItself(path: string)      // shutil.Error: directory moved into itself
    | CalledProcessError(code: int)
    | BadGzipFile(path: string)
    | TarReadError(path: string)
    | InvalidToken
    | TypeError
    | ConnectionFailure
    | UploadFailure
    | UnsupportedDBType(dbType: string)
    | Runtime(context: Context, cause: Exn)

  datatype Option<+T> = None | Some(value: T)

  /** A value, or the exception raised instead. */
  datatype Result<+T> = Ok(value: T) | Err(error: Exn) {
    predicate IsFailure() {
      Err?
    }

    function PropagateFailure<U>(): Result<U>
      requires Err?
    {
      Err(error)
    }

    function Extract(): T
      requires Ok?
    {
      value
    }
  }

  /** Python truthiness of an optional string: present and non-empty. */
  predicate Truthy(s: Option<string>) {
    s.Some? && s.value != ""
  }
}
