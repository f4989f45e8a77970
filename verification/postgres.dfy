/** `PostgresHandler`: the `pg_dump` invocation, the backup pipeline built
    on it, and the restore path that picks `psql` or `pg_restore` by the
    suffix of the decompressed file. */
module Postgres {
  import opened Strings
  import opened PosixPath
  import opened Exceptions
  import opened Artifacts
  import opened Compression
  import opened Encryption
  import opened BackupStages
  import opened Connection

  /** The `config` dictionary the handler keeps. */
  datatype Config = Config(host: string, user: string, password: string, dbname: string, port: int)

  const DefaultPort: int := 5432

  /** `PostgresHandler(**kwargs)`: host, user, password and database are
      required; the port defaults to 5432. */
  function New(args: ConnArgs): (r: Result<Config>)
    ensures r.Ok? <==> args.host.Some? && args.user.Some? && args.password.Some? && args.database.Some?
    ensures r.Err? ==> r.error == TypeError
    ensures r.Ok? ==> r.value.dbname == args.database.value && r.value.host == args.host.value
                      && r.value.user == args.user.value && r.value.password == args.password.value
    ensures r.Ok? ==> r.value.port == if args.port.Some? then args.port.value else DefaultPort
  {
    if args.host.None? || args.user.None? || args.password.None? || args.database.None? then Err(TypeError)
    else
      Ok(Config(args.host.value, args.user.value, args.password.value, args.database.value,
                if args.port.Some? then args.port.value else DefaultPort))
  }

  /** The server and database options every PostgreSQL client call carries. */
  function ConnectionArgs(cfg: Config): seq<string> {
    ["-h", cfg.host, "-p", IntToDecimal(cfg.port), "-U", cfg.user, "-d", cfg.dbname]
  }

  /** The `pg_dump` command line: custom format, large objects included,
      written to `path`. The password is not on the command line. */
  function DumpArgv(cfg: Config, path: Path): (argv: seq<string>)
    ensures |argv| == 16 && argv[0] == "pg_dump"
    ensures argv[1..9] == ConnectionArgs(cfg)
    ensures argv[9..11] == ["-f", path]
    ensures argv[11..] == ["-b", "-v", "--large-objects", "-F", "c"]
  {
    ["pg_dump"] + ConnectionArgs(cfg) + ["-f", path, "-b", "-v", "--large-objects", "-F", "c"]
  }

  /** The restore command `restore` builds for a decompressed file: ".sql"
      is replayed with `psql -f`, ".dump" and ".backup" go to `pg_restore`,
      anything else is refused. Both address the same server as the dump. */
  function RestoreCommand(cfg: Config, file: Path): (r: Option<seq<string>>)
    ensures r.None? <==> !EndsWith(file, ".sql") && !EndsWith(file, ".dump") && !EndsWith(file, ".backup")
    ensures r.Some? ==> |r.value| == 11 && r.value[1..9] == ConnectionArgs(cfg) && r.value[10] == file
    ensures r.Some? ==> (r.value[0] == "psql" <==> EndsWith(file, ".sql"))
    ensures r.Some? ==> (r.value[0] == "pg_restore" <==> !EndsWith(file, ".sql"))
    ensures r.Some? ==> r.value[9] == if EndsWith(file, ".sql") then "-f" else "-v"
  {
    if EndsWith(file, ".sql") then Some(["psql"] + ConnectionArgs(cfg) + ["-f", file])
    else if EndsWith(file, ".dump") || EndsWith(file, ".backup") then
      Some(["pg_restore"] + ConnectionArgs(cfg) + ["-v", file])
    else None
  }

  /** The dump's final artifact: the dump itself, or its ".gz" archive. */
  function ArtifactName(req: BackupRequest): Path {
    if req.compress then req.path + ".gz" else req.path
  }

  /** What the final artifact holds for a given dump file: the dump, or a
      gzipped tar archive whose one member is the dump under its basename. */
  function ArtifactContent(req: BackupRequest, dump: Content): Content {
    if req.compress then Gzip(Tar(Basename(req.path), File(dump))) else dump
  }

  /** The names `backup` writes after the dump are not directories: the
      archive when compressing and the ".enc" sibling when encrypting. */
  predicate Ready(req: BackupRequest, fs: Fs) {
    && (req.compress ==> !IsDir(fs, req.path + ".gz"))
    && (req.encrypt ==> !IsDir(fs, ArtifactName(req) + ".enc"))
  }

  /** `backup`: check for `pg_dump`, truncate `path` and run the dump into
      it, optionally archive it as `path + ".gz"` (a tar archive despite the
      name), then encrypt, store and notify. It returns the stored name,
      which without encryption is the caller's `encrypted_file`. */
  function Backup(cfg: Config, req: BackupRequest, w: World, fs: Fs): (t: Traced<Option<Path>>)
    ensures "pg_dump" !in w.onPath ==> t == Traced(Err(Runtime(BackupError, FileNotFound("pg_dump"))), fs, [])
    ensures t.log != [] ==> t.log[0] == Ran(DumpArgv(cfg, req.path))
    ensures t.result.Ok? ==> t.result.value == StoredName(req, ArtifactName(req))
    ensures t.result.Ok? && req.encrypt ==>
              t.result.value == Some(if req.compress then req.path + ".gz.enc" else req.path + ".enc")
    ensures t.result.Ok? && !req.encrypt ==> t.result.value == req.encryptedFile
    ensures UploadsCarry(t.log, StoredName(req, ArtifactName(req)))
    ensures t.result.Err? ==> t.result.error.Runtime? && t.result.error.context in {BackupFailed, BackupError}
    ensures t.result.Ok? <==>
              && "pg_dump" in w.onPath && Writable(fs, req.path) && w.exitStatus == 0
              && Ready(req, fs) && Stores(req, w, ArtifactName(req))
    ensures (t.result.Err? && t.result.error.context == BackupFailed) <==>
              "pg_dump" in w.onPath && Writable(fs, req.path) && w.exitStatus != 0
    ensures t.result.Err? && t.result.error.context == BackupFailed ==>
              t.result.error.cause == CalledProcessError(w.exitStatus)
    ensures SuccessNoticeSent(t.log) <==> t.result.Ok? && NotifyEnabled(req)
    ensures FailureNoticeSent(t.log) <==>
              "pg_dump" in w.onPath && Writable(fs, req.path) && w.exitStatus != 0 && NotifyEnabled(req)
    ensures t.result.Ok? ==> IsFile(t.fs, req.path) && t.fs[req.path] == File(w.dumped)
    ensures t.result.Ok? ==>
              IsFile(t.fs, ArtifactName(req)) && t.fs[ArtifactName(req)] == File(ArtifactContent(req, w.dumped))
    ensures t.result.Ok? && req.encrypt ==>
              && IsFile(t.fs, ArtifactName(req) + ".enc")
              && t.fs[ArtifactName(req) + ".enc"] == File(Cipher(w.key, ArtifactContent(req, w.dumped)))
  {
    if "pg_dump" !in w.onPath then Traced(Err(Runtime(BackupError, FileNotFound("pg_dump"))), fs, [])
    else
      var argv := DumpArgv(cfg, req.path);
      match WriteFile(fs, req.path, Empty)
      case Err(e) => Traced(Err(Runtime(BackupError, e)), fs, [])
      case Ok(fs1) =>
        match RunTool(w, argv)
        case Err(e) => RanAndFailed(req, e, fs1, argv)
        case Ok(_) =>
          ReadyElsewhere(req, fs, fs1);
          DumpThenStore(req, w, fs1, argv)
  }

  /** Rewriting the dump file leaves the names written after it as free as
      they were. */
  lemma ReadyElsewhere(req: BackupRequest, fs: Fs, fs': Fs)
    requires OnlyChanged(fs, fs', req.path)
    ensures Ready(req, fs') == Ready(req, fs)
  {
    ArchiveNames(req.path);
    Unchanged(fs, fs', req.path, req.path + ".gz");
    Unchanged(fs, fs', req.path, req.path + ".enc");
    Unchanged(fs, fs', req.path, req.path + ".gz.enc");
  }

  /** A successful dump into `path` followed by the rest of `backup`,
      stated for the filesystem before the dump. */
  function DumpThenStore(req: BackupRequest, w: World, fs: Fs, argv: seq<string>): (t: Traced<Option<Path>>)
    requires req.path != ""
    ensures t.log != [] && t.log[0] == Ran(argv)
    ensures t.result.Ok? <==> Ready(req, fs) && Stores(req, w, ArtifactName(req))
    ensures t.result.Ok? ==> t.result.value == StoredName(req, ArtifactName(req))
    ensures UploadsCarry(t.log, StoredName(req, ArtifactName(req)))
    ensures t.result.Ok? && req.encrypt ==>
              t.result.value == Some(if req.compress then req.path + ".gz.enc" else req.path + ".enc")
    ensures t.result.Err? ==> t.result.error.Runtime? && t.result.error.context == BackupError
    ensures !FailureNoticeSent(t.log)
    ensures SuccessNoticeSent(t.log) <==> t.result.Ok? && NotifyEnabled(req)
    ensures t.result.Ok? ==> IsFile(t.fs, req.path) && t.fs[req.path] == File(w.dumped)
    ensures t.result.Ok? ==>
              IsFile(t.fs, ArtifactName(req)) && t.fs[ArtifactName(req)] == File(ArtifactContent(req, w.dumped))
    ensures t.result.Ok? && req.encrypt ==>
              && IsFile(t.fs, ArtifactName(req) + ".enc")
              && t.fs[ArtifactName(req) + ".enc"] == File(Cipher(w.key, ArtifactContent(req, w.dumped)))
  {
    var dumped := fs[req.path := File(w.dumped)];
    ReadyElsewhere(req, fs, dumped);
    AfterDump(req, w, dumped, argv)
  }

  /** What `backup` does once the dump is in place. */
  function AfterDump(req: BackupRequest, w: World, fs: Fs, argv: seq<string>): (t: Traced<Option<Path>>)
    requires IsFile(fs, req.path)
    ensures t.log != [] && t.log[0] == Ran(argv)
    ensures t.result.Ok? <==> Ready(req, fs) && Stores(req, w, ArtifactName(req))
    ensures t.result.Ok? ==> t.result.value == StoredName(req, ArtifactName(req))
    ensures UploadsCarry(t.log, StoredName(req, ArtifactName(req)))
    ensures t.result.Ok? && req.encrypt ==>
              t.result.value == Some(if req.compress then req.path + ".gz.enc" else req.path + ".enc")
    ensures t.result.Err? ==> t.result.error.Runtime? && t.result.error.context == BackupError
    ensures !FailureNoticeSent(t.log)
    ensures SuccessNoticeSent(t.log) <==> t.result.Ok? && NotifyEnabled(req)
    ensures t.result.Ok? ==> req.path in t.fs && t.fs[req.path] == fs[req.path]
    ensures t.result.Ok? ==>
              IsFile(t.fs, ArtifactName(req)) && t.fs[ArtifactName(req)] == File(ArtifactContent(req, fs[req.path].data))
    ensures t.result.Ok? && req.encrypt ==>
              && IsFile(t.fs, ArtifactName(req) + ".enc")
              && t.fs[ArtifactName(req) + ".enc"] == File(Cipher(w.key, ArtifactContent(req, fs[req.path].data)))
  {
    if req.compress then ArchiveThenStore(req, w, fs, argv)
    else
      assert |req.path| < |req.path + ".enc"|;
      StoredAfterRun(req, w, fs, req.path, argv, req.path)
  }

  /** The compressing branch: archive the dump as `path + ".gz"`, then store
      the archive. */
  function ArchiveThenStore(req: BackupRequest, w: World, fs: Fs, argv: seq<string>): (t: Traced<Option<Path>>)
    requires IsFile(fs, req.path)
    ensures t.log != [] && t.log[0] == Ran(argv)
    ensures t.result.Ok? <==>
              && !IsDir(fs, req.path + ".gz") && (req.encrypt ==> !IsDir(fs, req.path + ".gz.enc"))
              && Stores(req, w, req.path + ".gz")
    ensures t.result.Ok? ==> t.result.value == StoredName(req, req.path + ".gz")
    ensures UploadsCarry(t.log, StoredName(req, req.path + ".gz"))
    ensures t.result.Ok? && req.encrypt ==> t.result.value == Some(req.path + ".gz.enc")
    ensures t.result.Err? ==> t.result.error.Runtime? && t.result.error.context == BackupError
    ensures !FailureNoticeSent(t.log)
    ensures SuccessNoticeSent(t.log) <==> t.result.Ok? && NotifyEnabled(req)
    ensures t.result.Ok? ==> req.path in t.fs && t.fs[req.path] == fs[req.path]
    ensures t.result.Ok? ==>
              IsFile(t.fs, req.path + ".gz") && t.fs[req.path + ".gz"] == File(Gzip(Tar(Basename(req.path), fs[req.path])))
    ensures t.result.Ok? && req.encrypt ==>
              && IsFile(t.fs, req.path + ".gz.enc")
              && t.fs[req.path + ".gz.enc"] == File(Cipher(w.key, Gzip(Tar(Basename(req.path), fs[req.path]))))
  {
    match CompressBackupTarFile(fs, req.path, req.path + ".gz")
    case Err(e) =>
      RanPrefix(argv, [], None);
      Traced(Err(Runtime(BackupError, e)), fs, [Ran(argv)])
    case Ok((_, fs1)) =>
      ArchiveNames(req.path);
      assert IsDir(fs1, req.path + ".gz.enc") == IsDir(fs, req.path + ".gz.enc");
      StoreArchive(req, w, fs1, argv)
  }

  /** Storing the archive `path + ".gz"` next to the dump. */
  function StoreArchive(req: BackupRequest, w: World, fs: Fs, argv: seq<string>): (t: Traced<Option<Path>>)
    requires IsFile(fs, req.path) && IsFile(fs, req.path + ".gz")
    ensures t.log != [] && t.log[0] == Ran(argv)
    ensures t.result.Ok? <==> (req.encrypt ==> !IsDir(fs, req.path + ".gz.enc")) && Stores(req, w, req.path + ".gz")
    ensures t.result.Ok? ==> t.result.value == StoredName(req, req.path + ".gz")
    ensures UploadsCarry(t.log, StoredName(req, req.path + ".gz"))
    ensures t.result.Err? ==> t.result.error.Runtime? && t.result.error.context == BackupError
    ensures !FailureNoticeSent(t.log)
    ensures SuccessNoticeSent(t.log) <==> t.result.Ok? && NotifyEnabled(req)
    ensures t.result.Ok? ==> req.path in t.fs && t.fs[req.path] == fs[req.path]
    ensures t.result.Ok? ==> req.path + ".gz" in t.fs && t.fs[req.path + ".gz"] == fs[req.path + ".gz"]
    ensures t.result.Ok? && req.encrypt ==>
              && IsFile(t.fs, req.path + ".gz.enc")
              && t.fs[req.path + ".gz.enc"] == File(Cipher(w.key, fs[req.path + ".gz"].data))
  {
    var archive := req.path + ".gz";
    ArchiveNames(req.path);
    var t := StoredAfterRun(req, w, fs, archive, argv, req.path);
    assert t.result.Ok? ==> archive in t.fs && t.fs[archive] == fs[archive];
    t
  }

  /** The names the compressing branch produces, and that none of them is
      the dump itself. */
  lemma ArchiveNames(p: Path)
    ensures p + ".gz" + ".enc" == p + ".gz.enc"
    ensures p != p + ".gz" && p != p + ".gz" + ".enc"
  {
    assert |p| < |p + ".gz"| < |p + ".gz" + ".enc"|;
  }

  /** The part of `restore` after decompression: `pg_restore` must be on
      the PATH even when `psql` will run; the command is chosen by the
      decompressed name and run once. Only the tool's non-zero exit is
      reported as "Restore failed". */
  function RunRestore(cfg: Config, file: Path, w: World): (r: Logged<()>)
    ensures "pg_restore" !in w.onPath ==> r == Logged(Err(Runtime(RestoreError, FileNotFound("pg_restore"))), [])
    ensures RestoreCommand(cfg, file).None? ==> r.result.Err? && r.log == []
    ensures r.log != [] ==> RestoreCommand(cfg, file).Some? && r.log == [Ran(RestoreCommand(cfg, file).value)]
    ensures r.result.Ok? <==>
              "pg_restore" in w.onPath && RestoreCommand(cfg, file).Some?
              && RestoreCommand(cfg, file).value[0] in w.onPath && w.exitStatus == 0
    ensures r.result.Ok? ==> |r.log| == 1 && NoUploads(r.log) && NoNotices(r.log)
    ensures r.result.Err? ==> r.result.error.Runtime? && r.result.error.context in {RestoreFailed, RestoreError}
    ensures r.result.Err? ==>
              (r.result.error.context == RestoreFailed <==> r.result.error.cause.CalledProcessError?)
  {
    if "pg_restore" !in w.onPath then Logged(Err(Runtime(RestoreError, FileNotFound("pg_restore"))), [])
    else
      match RestoreCommand(cfg, file)
      case None => Logged(Err(Runtime(RestoreError, ValueError(UnsupportedBackupFormat))), [])
      case Some(argv) =>
        match RunTool(w, argv)
        case Err(e) => Logged(Err(Runtime(if e.CalledProcessError? then RestoreFailed else RestoreError, e)), [Ran(argv)])
        case Ok(_) => Logged(Ok(()), [Ran(argv)])
  }

  /** `restore`: decrypt (the name must end in ".enc"), decompress by
      suffix, then run the restore tool on the decompressed name. */
  function Restore(cfg: Config, backupFile: Path, w: World, fs: Fs): (t: Traced<()>)
    ensures !EndsWith(backupFile, ".enc") ==>
              t == Traced(Err(Runtime(RestoreError, ValueError(NotEnc))), fs, [])
    ensures t.result.Err? ==> t.result.error.Runtime? && t.result.error.context in {RestoreFailed, RestoreError}
    ensures t.result.Err? ==>
              (t.result.error.context == RestoreFailed <==> t.result.error.cause.CalledProcessError?)
    ensures "pg_restore" !in w.onPath ==> t.result.Err? && t.log == []
    ensures t.log != [] ==>
              && EndsWith(backupFile, ".enc")
              && RestoreCommand(cfg, DecompressedName(DropLast(backupFile, 4))).Some?
              && t.log == [Ran(RestoreCommand(cfg, DecompressedName(DropLast(backupFile, 4))).value)]
    ensures t.result.Ok? ==> |t.log| == 1 && NoUploads(t.log) && NoNotices(t.log)
    ensures var d := DecryptFile(w.key, fs, backupFile);
            var name := DecompressedName(DropLast(backupFile, 4));
            t.result.Ok? <==>
              && d.Ok? && DecompressBackupFile(d.value.1, d.value.0).result.Ok? && "pg_restore" in w.onPath
              && RestoreCommand(cfg, name).Some? && RestoreCommand(cfg, name).value[0] in w.onPath
              && w.exitStatus == 0
    ensures var d := DecryptFile(w.key, fs, backupFile);
            var name := DecompressedName(DropLast(backupFile, 4));
            d.Ok? && DecompressBackupFile(d.value.1, d.value.0).result.Ok? && "pg_restore" in w.onPath
            && RestoreCommand(cfg, name).Some? ==>
              t.log == [Ran(RestoreCommand(cfg, name).value)]
  {
    match DecryptFile(w.key, fs, backupFile)
    case Err(e) => Traced(Err(Runtime(RestoreError, e)), fs, [])
    case Ok((decrypted, fs1)) => RestoreDecrypted(cfg, decrypted, w, fs1)
  }

  /** `restore` once the plaintext is in place: decompress by suffix, then
      run the restore tool on the decompressed name. */
  function RestoreDecrypted(cfg: Config, file: Path, w: World, fs: Fs): (t: Traced<()>)
    ensures t.result.Err? ==> t.result.error.Runtime? && t.result.error.context in {RestoreFailed, RestoreError}
    ensures t.result.Err? ==>
              (t.result.error.context == RestoreFailed <==> t.result.error.cause.CalledProcessError?)
    ensures "pg_restore" !in w.onPath ==> t.result.Err? && t.log == []
    ensures t.log != [] ==>
              && RestoreCommand(cfg, DecompressedName(file)).Some?
              && t.log == [Ran(RestoreCommand(cfg, DecompressedName(file)).value)]
    ensures t.result.Ok? ==> |t.log| == 1 && NoUploads(t.log) && NoNotices(t.log)
    ensures t.result.Ok? <==>
              && DecompressBackupFile(fs, file).result.Ok? && "pg_restore" in w.onPath
              && RestoreCommand(cfg, DecompressedName(file)).Some?
              && RestoreCommand(cfg, DecompressedName(file)).value[0] in w.onPath && w.exitStatus == 0
    ensures DecompressBackupFile(fs, file).result.Ok? && "pg_restore" in w.onPath
            && RestoreCommand(cfg, DecompressedName(file)).Some? ==>
              t.log == [Ran(RestoreCommand(cfg, DecompressedName(file)).value)]
    ensures t.fs == DecompressBackupFile(fs, file).fs
  {
    var d := DecompressBackupFile(fs, file);
    match d.result
    case Err(e) => Traced(Err(Runtime(RestoreError, e)), d.fs, [])
    case Ok(name) =>
      var r := RunRestore(cfg, name, w);
      Traced(r.result, d.fs, r.log)
  }

  /** Dump and restore address the same server, port, user and database. */
  lemma DumpAndRestoreAgreeOnServer(cfg: Config, path: Path, file: Path)
    requires RestoreCommand(cfg, file).Some?
    ensures DumpArgv(cfg, path)[1..9] == RestoreCommand(cfg, file).value[1..9]
  {
  }
}
