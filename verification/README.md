# Database backup utility: handlers and codecs

This project models the core of a command-line database backup utility. The
utility shells out to `pg_dump`/`pg_restore`/`psql`, `mongodump`/`mongorestore`
and `mysqldump`. It can tar and gzip the artifact, encrypt it with Fernet,
hand it to a storage step and post a Slack notice. The model covers:

- **File codecs.** The archive codec (`src/utils/compression.py`) and the
  encryption codec (`src/utils/encryption.py`), with the names each step
  derives. `src/config.py` has its own copy of the tar-folder codec, which is
  modelled and shown equal to the one in `compression.py`.
- **Handlers.** The three database handlers: constructor defaults, the exact
  command lines, the order of checks, artifact threading through
  compress → encrypt → store → notify, and which failures are reported as
  "Backup failed" / "Restore failed" and which as generic errors.
- **Storage dispatch.** `_handle_storage`/`_upload_to_cloud`, and the
  destination rule of `store_locally`.
- **Handler factory.** `get_db_handler`.

The outside world is a set of parameters:

- **Filesystem.** An abstract, flat filesystem: `Artifacts.Fs`, a map from
  path to a file or directory entry.
- **Contents.** Abstract tags: `Raw`, `Gzip`, `Tar`, `Cipher(key, _)`.
- **Environment.** A `World` record. It gives the tools on the PATH, the exit
  status of the tool that runs, what the dump produces, whether the Azure
  upload succeeds, and the encryption key.
- **Side effects.** Collected in an event log: the commands run, uploads
  attempted, Slack notices, driver `close()` calls.

The modules follow the source files:

- `Compression`, `Encryption`, `TarConfig`, `LocalStorage`, `CloudDispatch`
- `BackupStages`: the stages `PostgresHandler` and `MongoDBHandler` share
- `Postgres`, `Mongo`, `MySql`
- `Connection`: `connect`/`close` of the handlers
- `DbFactory`
- `RoundTrips`: end-to-end properties
- `Strings`, `PosixPath`, `Exceptions`, `Artifacts`: the supporting models of
  `str` methods, `os.path`, the exceptions and the environment

Where the code and its documentation disagree, the model follows the code:

- **Local storage.** With `storage == "local"` the handlers only log. They
  never move the backup, although `store_locally` exists and is imported.
- **S3 and GCP uploads.** `store_on_s3` and `store_on_gcp` take two
  parameters but are called with three, so both providers always fail with a
  TypeError. Only Azure reaches an upload.
- **Compressed PostgreSQL backups.** The file is a tar archive named
  "*.gz". Restore only gunzips it, so `pg_restore` is handed a tar archive
  rather than the dump (`RoundTrips.PostgresCompressedRestoreGetsArchive`).
- **PostgreSQL ".sql" names.** `pg_dump` always writes custom format
  (`-F c`), but restore picks `psql` for a ".sql" name
  (`RoundTrips.PostgresSqlNameReplaysCustomDump`).
- **MongoDB backup result.** `backup` returns the unencrypted archive or
  folder, which `restore` always rejects
  (`RoundTrips.MongoReturnedNameNotRestorable`). Restore also passes
  `mongorestore` a folder named after the database, while unpacking recreates
  the folder under its own name (`RoundTrips.MongoArchiveRestoreFolder`).
  The ciphertext a compressed, encrypted backup stores beside that archive
  is what `restore` accepts, and restoring it unpacks exactly the dump
  (`RoundTrips.MongoBackupThenRestore`).

## Model

| member | source | states |
|---|---|---|
| Artifacts.ReadFile | src/utils/encryption.py:13-14 | reading succeeds exactly on a file and yields its content; a missing name is FileNotFoundError |
| Artifacts.WriteFile | src/utils/encryption.py:18-19 | opening for writing succeeds exactly when the name is non-empty and not a directory; only that entry changes and it holds what was written |
| Artifacts.RunTool | src/database/postgres_handler.py:93 | a run succeeds exactly when the program is on the PATH and exits with status 0; a missing program is FileNotFoundError, a non-zero exit CalledProcessError with that status |
| Compression.CompressBackup | src/utils/compression.py:7-19 | succeeds exactly when the source is a file and the output name is writable; returns the output name; only the output changes, and it holds the gzip of the source (of nothing, when the source is its own output) |
| Compression.WriteTarGz | src/utils/compression.py:26-27 | writing an archive succeeds exactly when the output name is writable and the source exists or is the output; only the output changes; it holds one member, the source under the given name, or none when the source is the output |
| Compression.CompressBackupTarFile | src/utils/compression.py:22-29 | returns the output name; only the output changes; the archive's single entry is the source under its plain basename; archiving a path into itself gives an archive with no member |
| Compression.CompressBackupTarFolder | src/utils/compression.py:32-44 | as the file variant, but the entry is named by the basename of the normalised source |
| Compression.TrailingSlashEntryNames | src/utils/compression.py:22-44 | a trailing slash on the source leaves the folder entry name unchanged but makes the file variant's entry name empty |
| Compression.ExtractTarGz | src/utils/compression.py:56-57 | extraction succeeds exactly on a gzipped tar archive whose member can be written under the archive's directory without a file/directory clash; it writes the member there and changes nothing else |
| Compression.Gunzip | src/utils/compression.py:62-64 | a gzip stream yields what it wraps, a zero-byte file yields nothing, anything else is refused |
| Compression.GunzipFile | src/utils/compression.py:60-65 | succeeds exactly when the ".gz" name is a file, the target is writable and the content is gzip or empty; the target is truncated before the stream is read, so a bad stream still leaves an empty target; with an unreadable source or unwritable target nothing changes |
| Compression.DecompressBackupFile | src/utils/compression.py:47-68 | ".tar.gz" is checked before ".gz"; a ".tar.gz" name is extracted and stripped of seven characters; a ".gz" name is gunzipped into the name without the suffix; any other name comes back unchanged with the filesystem untouched |
| Compression.GzNameRoundTrip | src/utils/compression.py:54-65 | the name reported for `p + ".gz"` is `p`, unless `p` ends in ".tar", in which case four more characters are lost |
| Compression.GzipRoundTrip | src/utils/compression.py:7-65 | gzipping a file into its ".gz" name and decompressing that name gives back the original name with the filesystem as compression left it |
| Compression.DecompressBackupTarFolder | src/utils/compression.py:71-97 | a non-".tar.gz" name is refused before anything is opened; otherwise the result is the archive's directory joined with its basename stripped of two extensions, whatever the archive held |
| Compression.TarFolderTargetOfChild | src/utils/compression.py:85-94 | for "dir/D.tar.gz" the reported folder is "dir/D", with trailing slashes of dir removed |
| Compression.TarFolderTargetOfBareName | src/utils/compression.py:85-94 | for a bare "D.tar.gz" the reported folder is "D" |
| Compression.TarGzExtractsSource | src/utils/compression.py:26-57 | extracting a freshly written archive puts the source entry back under the archive's directory with the entry name it was given |
| Compression.FolderArchiveRoundTrip | src/utils/compression.py:40-94 | compressing a folder and decompressing the archive restores the folder's entry, but the reported folder equals the unpacked one exactly when the archive's stripped basename equals the entry name |
| Encryption.DecryptToken | src/utils/encryption.py:30 | a token decrypts exactly under the key that made it, and yields the plaintext it wraps |
| Encryption.EncryptFile | src/utils/encryption.py:12-21 | succeeds exactly when the input is a file and its ".enc" sibling is not a directory; writes the ciphertext there, returns that name and leaves everything else, the input included, untouched |
| Encryption.DecryptFile | src/utils/encryption.py:24-36 | a name without ".enc" is refused before the file is read; success needs the key that made the token and a writable name without the suffix; it writes the plaintext there, only that entry changes, and the ciphertext stays |
| Encryption.EncryptedNameRoundTrip | src/utils/encryption.py:17-32 | the name decryption derives from the encrypted name of `p` is `p` |
| Encryption.EncryptDecryptRoundTrip | src/utils/encryption.py:12-36 | decrypting a freshly encrypted file with the same key restores the original content at the original name and changes nothing else |
| Encryption.WrongKeyFails | src/utils/encryption.py:24-36 | a file encrypted under one key fails to decrypt under any other |
| TarConfig.CompressBackupTar | src/config.py:4-16 | the configuration module's folder compressor: entry named by the normalised basename, output name returned, only the output changes |
| TarConfig.DecompressBackupTar | src/config.py:18-42 | the configuration module's folder decompressor refuses non-".tar.gz" names and reports the directory joined with the doubly stripped basename |
| TarConfig.CompressCopiesAgree | src/config.py:4-16 | the copy in the configuration module and the one in the compression module agree on every input |
| TarConfig.DecompressCopiesAgree | src/config.py:18-42 | the two decompressor copies agree on every input |
| LocalStorage.MakeDirs | src/storage/local_storage.py:6 | creating the destination succeeds unless it is an existing file or the empty name; afterwards it is a directory and every existing entry is kept |
| LocalStorage.Move | src/storage/local_storage.py:8 | the move goes into a directory destination, otherwise onto the destination name; the source is removed and its entry appears at the target; existing entries inside a directory destination are not overwritten; a file moved onto a non-directory name always succeeds |
| LocalStorage.StoreLocally | src/storage/local_storage.py:4-11 | every failure is a RuntimeError; a file stored in a creatable destination whose target name is free succeeds; success leaves the file at destination/basename and no longer at its old name, with nothing else changed except the created directory |
| LocalStorage.StoreLocallyUndo | src/storage/local_storage.py:4-11 | moving the stored file back to its old name gives the filesystem `makedirs` alone would have left |
| CloudDispatch.ProviderNamed | src/database/postgres_handler.py:156-163 | each provider is selected by exactly its lower-case name |
| CloudDispatch.UploadToCloud | src/database/postgres_handler.py:146-168 | an unknown provider is rejected without an upload; "aws" and "gcp" always fail; only "azure" attempts an upload, and it succeeds exactly when a file name is given and Azure accepts it; every failure is a cloud-upload RuntimeError |
| CloudDispatch.HandleStorage | src/database/postgres_handler.py:125-144 | "cloud" without a provider and bucket fails before any upload, with both it is the upload; "local" succeeds with no side effect; any other storage name is rejected; storage succeeds exactly for "local" or an accepted Azure upload of a named file |
| BackupStages.ReportsConcat | src/database/postgres_handler.py:101-117 | what a log reports (success notice, failure notice, the name uploads carry) is what its two halves report |
| BackupStages.DumpFailure | src/database/postgres_handler.py:114-123 | a non-zero exit of the dump is "Backup failed" and is notified exactly when notifications are on; any other error is a generic backup error and is never notified |
| BackupStages.EncryptStage | src/database/postgres_handler.py:101-104 | with encryption the stored name is the artifact's ".enc" sibling; without it, the caller's `encrypted_file` |
| BackupStages.EncryptStoreNotify | src/database/postgres_handler.py:101-112 | after the dump, success exactly when encryption (if asked for) can run and storage accepts the stored name; every failure is a generic backup error; the stored name reaches every upload; a success notice is sent exactly on success with notifications on, and a failure notice never |
| BackupStages.StoreThenNotify | src/database/postgres_handler.py:106-112 | storing then notifying succeeds exactly when storage does, returns the stored name, writes no file, and notifies success exactly on success with notifications on |
| BackupStages.RanAndFailed | src/database/postgres_handler.py:91-123 | a dump that ran and failed leaves only its command and possibly the failure notice in the log; it never uploads and never sends a success notice |
| BackupStages.StoredAfterRun | src/database/postgres_handler.py:96-112 | after a successful dump, success exactly when encryption can run and storage accepts; the result is the stored name; other entries are kept; encryption adds only the ciphertext sibling |
| Connection.Connect | src/database/postgres_handler.py:28-33 | connecting succeeds exactly when the server is reachable and then makes the handle live; a driver failure is a ConnectionError that leaves the handle as it was |
| Connection.Close | src/database/mysql_handler.py:24-27 | the driver's `close()` is called exactly when a handle was ever set |
| Connection.CloseTwice | src/database/postgres_handler.py:35-38 | a second close leaves the handle as the first did but calls the driver's `close()` again, since the attribute is never cleared |
| Postgres.New | src/database/postgres_handler.py:18-26 | host, user, password and database are required (TypeError otherwise); the database is stored as "dbname"; the port defaults to 5432 |
| Postgres.DumpArgv | src/database/postgres_handler.py:72-89 | the `pg_dump` command line: connection options, output file, then custom-format and large-object flags; no password |
| Postgres.RestoreCommand | src/database/postgres_handler.py:194-230 | ".sql" runs `psql -f`, ".dump" and ".backup" run `pg_restore -v`, anything else is refused; both name the file last and carry the dump's connection options |
| Postgres.DumpAndRestoreAgreeOnServer | src/database/postgres_handler.py:72-226 | dump and restore address the same host, port, user and database |
| Postgres.Backup | src/database/postgres_handler.py:63-123 | a missing `pg_dump` fails before the file is touched; success exactly when the tool is present, the dump path is writable, the dump exits 0, the archive and ciphertext names are not directories and storage accepts; the result is the stored name (".gz.enc" / ".enc" with encryption, else `encrypted_file`); "Backup failed" exactly on a non-zero dump exit, notified exactly then with notifications on; on success the dump, its archive and its ciphertext hold what each stage wrote |
| Postgres.ReadyElsewhere | src/database/postgres_handler.py:92-104 | rewriting the dump file does not change whether the archive and ciphertext names are free |
| Postgres.DumpThenStore | src/database/postgres_handler.py:92-112 | after a successful dump, success exactly when those names are free and storage accepts; contents as in `backup` |
| Postgres.AfterDump | src/database/postgres_handler.py:96-112 | once the dump is in place, success exactly when the later names are free and storage accepts; the result is the stored name, every upload carries it, and the artifact holds the dump or its archive |
| Postgres.ArchiveThenStore | src/database/postgres_handler.py:98-112 | the compressing branch archives the dump as `path + ".gz"` before the shared tail, and succeeds exactly when the archive (and ciphertext) names are free and storage accepts |
| Postgres.StoreArchive | src/database/postgres_handler.py:101-112 | storing the archive keeps both the dump and the archive in place and, with encryption, writes the archive's ciphertext |
| Postgres.RunRestore | src/database/postgres_handler.py:188-240 | `pg_restore` must be on the PATH even for `psql`; an unsupported name fails without running anything; the chosen command runs once; only its non-zero exit is "Restore failed" |
| Postgres.Restore | src/database/postgres_handler.py:177-240 | a name without ".enc" fails with nothing touched; restore succeeds exactly when decryption and decompression succeed, `pg_restore` and the chosen program are on the PATH and the run exits 0; once decryption and decompression succeed with `pg_restore` present, exactly the chosen command runs on the decompressed name; success neither uploads nor notifies |
| Postgres.RestoreDecrypted | src/database/postgres_handler.py:186-240 | after decryption, success holds exactly when decompression succeeds, `pg_restore` and the chosen program are on the PATH and the run exits 0; with decompression done and `pg_restore` present exactly that command runs on the decompressed name; the filesystem is the one decompression leaves |
| Mongo.New | src/database/mongo_handler.py:14-32 | host and port are required (TypeError otherwise); user, password and database default to unset |
| Mongo.CleanConfig | src/database/mongo_handler.py:46 | keeps exactly the settings whose value is not None, each unchanged |
| Mongo.ClientKwargs | src/database/mongo_handler.py:27-49 | the client receives host and port always, and username and password exactly when they were given |
| Mongo.Connect | src/database/mongo_handler.py:44-61 | the client is kept once built; only a non-empty database name is looked up; a missing database only warns; any failure is a ConnectionError |
| Mongo.MissingDatabaseOnlyWarns | src/database/mongo_handler.py:53-58 | a reachable server never makes `connect` fail, and a missing database yields the warning |
| Mongo.DumpArgv | src/database/mongo_handler.py:100-110 | the `mongodump` command line: host, database, port and output folder |
| Mongo.RestoreArgv | src/database/mongo_handler.py:216-226 | the `mongorestore` command line: host, port, database and input folder |
| Mongo.Dumped | src/database/mongo_handler.py:112 | the dump fills the output folder and changes nothing else |
| Mongo.Backup | src/database/mongo_handler.py:91-145 | a missing `mongodump` or unset database fails without running anything; success exactly when the dump exits 0, the archive names are free (compression) or nothing is encrypted (no compression) and storage accepts; the result is the archive "path/db.tar.gz" or the folder, not the stored name; "Backup failed" exactly on a non-zero dump exit, notified exactly then with notifications on; on success the folder holds the dump and the archive holds the gzipped tar of it, with its ciphertext when encrypting |
| Mongo.EncryptNeedsCompress | src/database/mongo_handler.py:116-125 | asking for encryption without compression always fails, since the folder cannot be read as a file |
| Mongo.DumpedKeepsReady | src/database/mongo_handler.py:112-125 | the dump does not change whether the archive names are free |
| Mongo.DumpThenStore | src/database/mongo_handler.py:112-134 | after a successful dump, success exactly under the conditions of `backup`; same contents |
| Mongo.AfterDump | src/database/mongo_handler.py:115-134 | once the dump folder exists, success exactly when the later names are free and storage accepts; the result is the unencrypted artifact while uploads carry the stored name; the dump folder is kept |
| Mongo.ArchiveThenStore | src/database/mongo_handler.py:118-134 | the archive is written inside the dump folder it archives, then stored; it holds the gzipped tar of the folder as dumped |
| Mongo.Archive | src/database/mongo_handler.py:118-121 | archiving succeeds exactly for a named folder whose archive name is not a directory; the folder entry is kept and the archive holds it |
| Mongo.StoreArchive | src/database/mongo_handler.py:123-134 | storing the archive keeps the folder and the archive and, with encryption, writes the archive's ciphertext |
| Mongo.Returning | src/database/mongo_handler.py:134 | `backup` reports the artifact instead of the stored name, with the same outcome |
| Mongo.Restore | src/database/mongo_handler.py:199-236 | a name without ".enc" fails with nothing touched; anything but ".tar.gz.enc" fails before any tool runs; restore succeeds exactly when decryption and unpacking succeed, `mongorestore` is on the PATH, a database is configured and the run exits 0; once those steps succeed with the tool present, `mongorestore` runs on the folder derived from the archive name over the unpacked filesystem |
| Mongo.RunRestore | src/database/mongo_handler.py:209-236 | `mongorestore` must be on the PATH and the database set; the tool runs once; "Restore failed" exactly on its non-zero exit |
| Mongo.TarGzEncName | src/database/mongo_handler.py:204-208 | a name passes both restore suffix checks exactly when it ends in ".tar.gz.enc" |
| MySql.New | src/database/mysql_handler.py:7-15 | host, user, password and database are required (TypeError otherwise); the port defaults to 3306 |
| MySql.DumpArgv | src/database/mysql_handler.py:41-48 | the `mysqldump` command line carries the password as `--password=` and the database last, and no output file |
| MySql.Backup | src/database/mysql_handler.py:29-57 | the tool is checked before the file is opened; success exactly when the tool is present, the path is writable and the exit is zero; "Backup failed" exactly on a non-zero exit; only the backup file changes, holding the dump on success and nothing after a failed run |
| MySql.DefaultBackup | src/database/mysql_handler.py:29 | without a named file the dump goes to "backup.sql" |
| MySql.BackupIdempotent | src/database/mysql_handler.py:50-51 | running a successful backup again leaves the same filesystem and log: the file is rewritten, not appended to |
| DbFactory.GetDbHandler | src/database/db_factory.py:10-33 | each handler is built exactly for a case-insensitive spelling of its name and a complete argument set; an unknown name is rejected in lower case; a missing argument is a TypeError; no handler starts connected |
| DbFactory.CaseInsensitive | src/database/db_factory.py:24 | any spelling of the type name behaves as its lower-case form |
| DbFactory.SqliteRejected | src/database/db_factory.py:15-33 | every spelling whose lower-case form is "sqlite", a name the documentation mentions, is rejected as unsupported under "sqlite" |
| PosixPath.Basename | src/utils/compression.py:27 | the basename holds no '/', is a suffix of the path, and is preceded by a '/' when shorter than the path |
| PosixPath.Dirname | src/utils/compression.py:85 | the directory is the part up to the last '/' with only slashes removed from its end, and ends in a '/' only when it is all slashes |
| PosixPath.Join | src/storage/local_storage.py:7 | an absolute second part wins; otherwise the result ends with it and starts with the first part, with one '/' between them when the first part does not end in one |
| PosixPath.JoinInjective | src/storage/local_storage.py:7 | joining plain names onto one directory gives equal paths exactly for equal names |
| PosixPath.Splitext | src/utils/compression.py:93 | the two parts concatenate to the path; the extension is empty or a single dot-led component suffix without another dot or '/' |
| PosixPath.Normpath | src/utils/compression.py:42 | the normalised path is never empty |
| PosixPath.NormpathTrailingSlash | src/utils/compression.py:42 | a trailing slash does not change the normalised form of a path other than "", "/" and "//" |
| PosixPath.NormpathOfRoot | src/utils/compression.py:42 | "/" normalises to itself |
| PosixPath.NormpathOfTwoSlashes | src/utils/compression.py:42 | "//" keeps both slashes |
| PosixPath.NormpathOfThreeSlashes | src/utils/compression.py:42 | "///" collapses to "/" |
| PosixPath.BasenameNormpathTrailingSlash | src/utils/compression.py:42 | the folder entry name ignores a trailing slash on the source |
| PosixPath.SplitSlashRoundTrip | src/utils/compression.py:42 | splitting a path at '/' and joining the parts with '/' gives the path back |
| Strings.Lower | src/database/db_factory.py:24 | lower-casing keeps the length and maps each character |
| Strings.LowerMatchesIgnoringCase | src/database/db_factory.py:24-30 | a lower-cased name equals a lower-case word exactly when the name spells that word in any mixture of cases |
| Strings.NatToDecimalRoundTrip | src/database/postgres_handler.py:77 | the decimal port string reads back as the port |
| Strings.IntToDecimal | src/database/postgres_handler.py:77 | `str` of an integer is a '-' exactly for a negative number, followed by digits that read back as its magnitude |
| RoundTrips.PostgresPlainRoundTrip | src/database/postgres_handler.py:92-233 | without compression, restoring the name `backup` returns runs `pg_restore` on the dump path, which holds exactly what `pg_dump` wrote |
| RoundTrips.PostgresSqlNameReplaysCustomDump | src/database/postgres_handler.py:72-209 | a backup to a ".sql" name is dumped in custom format, yet its restore replays that file with `psql -f`, which expects plain SQL |
| RoundTrips.PostgresCompressedRestoreGetsArchive | src/database/postgres_handler.py:98-186 | with compression, the same restore hands `pg_restore` the dump path holding a tar archive of the dump, not the dump |
| RoundTrips.RestoreOfGzippedArchive | src/database/postgres_handler.py:182-225 | restoring "p.gz.enc" whose plaintext is gzip of some content leaves that content at p and runs `pg_restore` on p |
| RoundTrips.PostgresCloudNeedsAzure | src/database/postgres_handler.py:101-168 | a cloud backup succeeds only through an accepted Azure upload of a named file, so a plain cloud backup without `encrypted_file` always fails |
| RoundTrips.MongoReturnedNameNotRestorable | src/database/mongo_handler.py:116-208 | the name MongoDB's `backup` returns is always refused by its `restore` before any tool runs |
| RoundTrips.MongoArchiveRestoreFolder | src/database/mongo_handler.py:118-225 | restore names "P/D" for database D while unpacking recreates "P/<last component of P>"; the two agree exactly when that component is D |
| RoundTrips.MongoRestoreOfEncryptedArchive | src/database/mongo_handler.py:199-229 | given a folder archive "P/D.tar.gz" and its ciphertext under the World's key, restore of the ciphertext succeeds exactly when `mongorestore` exits 0 and unpacking is not blocked; it then runs `mongorestore` on "P/D" and leaves the folder unpacked at "P/<last component of P>", changing nothing else |
| RoundTrips.DecryptStoredArchive | src/utils/encryption.py:24-36 | decrypting a ciphertext whose plaintext sibling already holds that plaintext succeeds with the sibling's name and leaves the filesystem unchanged |
| RoundTrips.UnpackArchive | src/utils/compression.py:71-97 | unpacking a MongoDB folder archive succeeds exactly when the folder can be placed at "P/<last component of P>", reports "P/D" and only adds that folder |
| RoundTrips.MongoBackupLeavesCiphertext | src/database/mongo_handler.py:116-134 | a successful compressed, encrypted backup returns the archive name, which holds the archive of the dump, with its ciphertext under the World's key beside it |
| RoundTrips.MongoBackupThenRestore | src/database/mongo_handler.py:118-229 | the ciphertext a compressed, encrypted backup stores restores: with `mongorestore` present restore succeeds exactly when the dump folder can be unpacked, runs `mongorestore` on "P/D", and the unpacked folder holds exactly the dump |
| Artifacts.RewriteSame | src/utils/encryption.py:18-19 | writing an entry with what it already holds leaves the filesystem unchanged |

## Left out

- I/O, byte formats and the tools' own behaviour: contents are abstract tags. Fernet's cryptography is reduced to "only the same key decrypts". A tool run is characterised by one exit status and one produced content from the `World` parameter.
- Logging, the `print` calls and the Slack HTTP call are left out. A notice is an event in the log; whether posting it succeeds is not modelled, because `send_slack_notification` is not part of this model.
- The command-line front end is not part of this model. Neither are the cloud SDKs or the Azure configuration file read at import time. Azure's outcome is a `World` flag.
- The encryption key read from the environment at import time is a parameter. A missing or malformed key, which fails at import, is not modelled.
- The filesystem is flat: parent directories, symbolic links and path aliasing (`a//b` versus `a/b`) are not tracked. `MakeDirs` does not create missing parents, and a write is assumed to find its parent directory.
- Output a failed tool or write produces before failing is not tracked: the target is left as the truncated file the `open(..., "w")` produced.
- Strings.Lower: lower-cases ASCII letters only; Python's `str.lower` also folds other alphabets.
- LocalStorage.StoreLocally: its full-effect clause assumes the file is not the destination and the target is neither a directory, the file itself nor the destination. Its success clause also assumes the target is not the destination itself. That happens only for a file name ending in '/', which POSIX never resolves to a regular file. `shutil.move`'s behaviour in those aliasing cases is stated only by `LocalStorage.Move`.
- LocalStorage.Move: the success condition is stated only for a file source and a non-directory destination. Moves of directories into directories are modelled in the body but only their effect, not their success condition, is stated.
- `Connection.ConnArgs` uses an unset field for "keyword not supplied"; passing an explicit `None` is not distinguished from omitting the keyword.
- Compression.WriteTarGz: an archive written inside the folder it archives (MongoDB's layout) is modelled as holding the folder as it was before the archive appeared. This is what `tarfile` does, since it skips the archive being written. A missing source makes the write fail with the filesystem unchanged, whereas `tarfile` leaves the created output behind.
- Mongo.Backup: an empty output folder name is passed to `mongodump` unchanged; the model does not track where such a dump lands, and the compressing branch then fails.
- PosixPath.Splitext: states the split's shape, not which dot it splits at; the body follows `posixpath.splitext`.
- PosixPath.Normpath: states only that the result is non-empty; the specific shapes `backup` meets (root, trailing slash, two and three leading slashes) are stated by the `Normpath…` lemmas.
- `Connection.Connect` and `Mongo.Connect`: the driver's own connection behaviour is a boolean parameter.
- `Connection.Connect` and `Connection.Close` model the PostgreSQL and MySQL handlers, whose `connect` and `close` differ only in logging. The MongoDB handler's `connect` is `Mongo.Connect`; its `close` has the same shape as `Connection.Close`.
