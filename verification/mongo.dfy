/** `MongoDBHandler`: the client keyword arguments with unset values
    dropped, the connection check that only warns about a missing database,
    the `mongodump` backup of a folder archived as "<db>.tar.gz" inside
    itself, and the `mongorestore` path. */
module Mongo {
  import opened Strings
  import opened PosixPath
  import opened Exceptions
  import opened Artifacts
  import opened Compression
  import opened Encryption
  import opened BackupStages
  import opened Connection

  /** A value in the client configuration dictionary. */
  datatype Value = Str(s: string) | Int(i: int)

  /** The handler's `config` dictionary and its separate `database`. */
  datatype Config = Config(host: string, port: int, user: Option<string>, password: Option<string>,
                           database: Option<string>)

  /** `MongoDBHandler(**kwargs)`: host and port are required, the rest
      default to `None`. */
  function New(args: ConnArgs): (r: Result<Config>)
    ensures r.Ok? <==> args.host.Some? && args.port.Some?
    ensures r.Err? ==> r.error == TypeError
    ensures r.Ok? ==> r.value == Config(args.host.value, args.port.value, args.user, args.password, args.database)
  {
    if args.host.None? || args.port.None? then Err(TypeError)
    else Ok(Config(args.host.value, args.port.value, args.user, args.password, args.database))
  }

  function StrOf(s: Option<string>): Option<Value> {
    if s.Some? then Some(Str(s.value)) else None
  }

  /** The four settings the handler keeps for the client; `None` is an
      unset user or password. */
  function Settings(cfg: Config): map<string, Option<Value>> {
    map["host" := Some(Str(cfg.host)), "port" := Some(Int(cfg.port)),
        "username" := StrOf(cfg.user), "password" := StrOf(cfg.password)]
  }

  /** The dictionary comprehension in `connect`: exactly the entries whose
      value is not `None`, each unchanged. Empty strings are kept. */
  function CleanConfig(settings: map<string, Option<Value>>): (r: map<string, Value>)
    ensures forall k :: k in r <==> k in settings && settings[k].Some?
    ensures forall k :: k in r ==> settings[k] == Some(r[k])
  {
    map k | k in settings && settings[k].Some? :: settings[k].value
  }

  /** The keyword arguments the client receives: host and port always,
      username and password exactly when they were given. */
  lemma ClientKwargs(cfg: Config)
    ensures var kw := CleanConfig(Settings(cfg));
            && kw.Keys == {"host", "port"} + (if cfg.user.Some? then {"username"} else {})
                                           + (if cfg.password.Some? then {"password"} else {})
            && kw["host"] == Str(cfg.host) && kw["port"] == Int(cfg.port)
            && (cfg.user.Some? ==> kw["username"] == Str(cfg.user.value))
            && (cfg.password.Some? ==> kw["password"] == Str(cfg.password.value))
  {
    var kw := CleanConfig(Settings(cfg));
    var want := {"host", "port"} + (if cfg.user.Some? then {"username"} else {})
                                 + (if cfg.password.Some? then {"password"} else {});
    forall k ensures k in kw <==> k in want {
      assert k in Settings(cfg) <==> k in {"host", "port", "username", "password"};
    }
  }

  /** `connect`: the client attribute is set as soon as the client is
      built; with a non-empty database name the server is asked for its
      databases, and a missing one only produces a warning. Any failure
      becomes ConnectionError. `clientBuilt` says whether constructing the
      client succeeds; `listing` is the server's database list, or `None`
      when asking for it fails. The result is whether the warning was
      logged. */
  function Connect(cfg: Config, link: Link, clientBuilt: bool, listing: Option<set<string>>): (r: (Link, Result<bool>))
    ensures r.0 == if clientBuilt then Live else link
    ensures r.1.Err? ==> r.1.error == ConnectionFailure
    ensures r.1.Ok? <==> clientBuilt && (!Truthy(cfg.database) || listing.Some?)
    ensures r.1.Ok? ==> (r.1.value <==> Truthy(cfg.database) && cfg.database.value !in listing.value)
  {
    if !clientBuilt then (link, Err(ConnectionFailure))
    else if Truthy(cfg.database) then
      match listing
      case None => (Live, Err(ConnectionFailure))
      case Some(names) => (Live, Ok(cfg.database.value !in names))
    else (Live, Ok(false))
  }

  /** A reachable server never makes `connect` fail, whether or not the
      database exists yet. */
  lemma MissingDatabaseOnlyWarns(cfg: Config, link: Link, names: set<string>)
    ensures Connect(cfg, link, true, Some(names)).1.Ok?
    ensures Truthy(cfg.database) && cfg.database.value !in names ==> Connect(cfg, link, true, Some(names)).1 == Ok(true)
  {
  }

  /** The `mongodump` command line. */
  function DumpArgv(cfg: Config, db: string, path: Path): (argv: seq<string>)
    ensures |argv| == 9 && argv[0] == "mongodump"
    ensures argv[3..5] == ["--db", db] && argv[7..] == ["--out", path]
    ensures argv[1..3] == ["--host", cfg.host] && argv[5..7] == ["--port", IntToDecimal(cfg.port)]
  {
    ["mongodump", "--host", cfg.host, "--db", db, "--port", IntToDecimal(cfg.port), "--out", path]
  }

  /** The `mongorestore` command line. */
  function RestoreArgv(cfg: Config, db: string, dir: Path): (argv: seq<string>)
    ensures |argv| == 9 && argv[0] == "mongorestore"
    ensures argv[5..7] == ["--db", db] && argv[7..] == ["--dir", dir]
    ensures argv[1..3] == ["--host", cfg.host] && argv[3..5] == ["--port", IntToDecimal(cfg.port)]
  {
    ["mongorestore", "--host", cfg.host, "--port", IntToDecimal(cfg.port), "--db", db, "--dir", dir]
  }

  /** Where the compressed dump goes: inside the dump folder itself. */
  function ArchivePath(path: Path, db: string): Path {
    path + "/" + db + ".tar.gz"
  }

  /** What `backup` returns: the archive, or the dump folder. */
  function Artifact(req: BackupRequest, db: string): Path {
    if req.compress then ArchivePath(req.path, db) else req.path
  }

  /** The filesystem after `mongodump --out path`: the folder holds the
      dump. An empty folder name leaves the tracked filesystem unchanged. */
  function Dumped(req: BackupRequest, w: World, fs: Fs): (r: Fs)
    ensures req.path != "" ==> IsDir(r, req.path) && r[req.path] == Dir(w.dumped) && OnlyChanged(fs, r, req.path)
    ensures req.path == "" ==> r == fs
  {
    if req.path == "" then fs else fs[req.path := Dir(w.dumped)]
  }

  /** The archive `backup` writes for a dumped folder. */
  function ArchiveContent(path: Path, folder: Entry): Content {
    Gzip(Tar(FolderEntryName(path), folder))
  }

  /** What `backup` needs of the filesystem once the dump has run: when
      compressing, a named folder and archive names that are not
      directories; without compression no encryption, since the folder
      cannot be read as a file. */
  predicate Ready(req: BackupRequest, fs: Fs, db: string) {
    if req.compress then
      && req.path != ""
      && !IsDir(fs, ArchivePath(req.path, db))
      && (req.encrypt ==> !IsDir(fs, ArchivePath(req.path, db) + ".enc"))
    else !req.encrypt
  }

  /** `backup`: check for `mongodump`, dump the database into the folder
      `path`, optionally archive it, then encrypt, store and notify. It
      returns the archive or folder, not the encrypted name that was
      stored. An unset database reaches `subprocess.run` as `None`, which
      raises TypeError before anything is started. */
  function Backup(cfg: Config, req: BackupRequest, w: World, fs: Fs): (t: Traced<Path>)
    ensures "mongodump" !in w.onPath ==>
              t == Traced(Err(Runtime(BackupError, FileNotFound("mongodump"))), fs, [])
    ensures "mongodump" in w.onPath && cfg.database.None? ==>
              t == Traced(Err(Runtime(BackupError, TypeError)), fs, [])
    ensures t.log != [] ==> cfg.database.Some? && t.log[0] == Ran(DumpArgv(cfg, cfg.database.value, req.path))
    ensures t.result.Ok? ==> cfg.database.Some? && t.result.value == Artifact(req, cfg.database.value)
    ensures cfg.database.Some? ==> UploadsCarry(t.log, StoredName(req, Artifact(req, cfg.database.value)))
    ensures t.result.Ok? <==>
              && "mongodump" in w.onPath && cfg.database.Some? && w.exitStatus == 0
              && Ready(req, fs, cfg.database.value) && Stores(req, w, Artifact(req, cfg.database.value))
    ensures t.result.Err? ==> t.result.error.Runtime? && t.result.error.context in {BackupFailed, BackupError}
    ensures (t.result.Err? && t.result.error.context == BackupFailed) <==>
              "mongodump" in w.onPath && cfg.database.Some? && w.exitStatus != 0
    ensures t.result.Err? && t.result.error.context == BackupFailed ==>
              t.result.error.cause == CalledProcessError(w.exitStatus)
    ensures SuccessNoticeSent(t.log) <==> t.result.Ok? && NotifyEnabled(req)
    ensures FailureNoticeSent(t.log) <==>
              "mongodump" in w.onPath && cfg.database.Some? && w.exitStatus != 0 && NotifyEnabled(req)
    ensures t.result.Ok? && req.path != "" ==> IsDir(t.fs, req.path) && t.fs[req.path] == Dir(w.dumped)
    ensures t.result.Ok? && req.compress ==>
              var archive := ArchivePath(req.path, cfg.database.value);
              && IsFile(t.fs, archive) && t.fs[archive] == File(ArchiveContent(req.path, Dir(w.dumped)))
              && (req.encrypt ==> IsFile(t.fs, archive + ".enc") && t.fs[archive + ".enc"] == File(Cipher(w.key, ArchiveContent(req.path, Dir(w.dumped)))))
  {
    if "mongodump" !in w.onPath then Traced(Err(Runtime(BackupError, FileNotFound("mongodump"))), fs, [])
    else
      match cfg.database
      case None => Traced(Err(Runtime(BackupError, TypeError)), fs, [])
      case Some(db) =>
        var argv := DumpArgv(cfg, db, req.path);
        match RunTool(w, argv)
        case Err(e) => RanAndFailed(req, e, fs, argv)
        case Ok(_) => DumpThenStore(req, w, fs, db, argv)
  }

  /** A successful dump followed by the rest of `backup`, stated for the
      filesystem before the dump. */
  function DumpThenStore(req: BackupRequest, w: World, fs: Fs, db: string, argv: seq<string>): (t: Traced<Path>)
    ensures t.log != [] && t.log[0] == Ran(argv)
    ensures t.result.Ok? <==> Ready(req, fs, db) && Stores(req, w, Artifact(req, db))
    ensures t.result.Ok? ==> t.result.value == Artifact(req, db)
    ensures UploadsCarry(t.log, StoredName(req, Artifact(req, db)))
    ensures t.result.Err? ==> t.result.error.Runtime? && t.result.error.context == BackupError
    ensures !FailureNoticeSent(t.log)
    ensures SuccessNoticeSent(t.log) <==> t.result.Ok? && NotifyEnabled(req)
    ensures t.result.Ok? && req.path != "" ==> IsDir(t.fs, req.path) && t.fs[req.path] == Dir(w.dumped)
    ensures t.result.Ok? && req.compress ==>
              var archive := ArchivePath(req.path, db);
              && IsFile(t.fs, archive) && t.fs[archive] == File(ArchiveContent(req.path, Dir(w.dumped)))
              && (req.encrypt ==> IsFile(t.fs, archive + ".enc") && t.fs[archive + ".enc"] == File(Cipher(w.key, ArchiveContent(req.path, Dir(w.dumped)))))
  {
    DumpedKeepsReady(req, w, fs, db);
    AfterDump(req, w, Dumped(req, w, fs), db, argv)
  }

  /** The dump touches only its own folder, so the names `backup` writes
      afterwards are as free as they were before. */
  lemma DumpedKeepsReady(req: BackupRequest, w: World, fs: Fs, db: string)
    ensures Ready(req, Dumped(req, w, fs), db) == Ready(req, fs, db)
  {
    if req.path != "" {
      var archive := ArchivePath(req.path, db);
      ArchiveNames(req.path, db);
      Unchanged(fs, Dumped(req, w, fs), req.path, archive);
      Unchanged(fs, Dumped(req, w, fs), req.path, archive + ".enc");
    }
  }

  /** What `backup` does once the dump folder exists. */
  function AfterDump(req: BackupRequest, w: World, fs: Fs, db: string, argv: seq<string>): (t: Traced<Path>)
    requires req.path == "" || IsDir(fs, req.path)
    ensures t.log != [] && t.log[0] == Ran(argv)
    ensures t.result.Ok? <==> Ready(req, fs, db) && Stores(req, w, Artifact(req, db))
    ensures t.result.Ok? ==> t.result.value == Artifact(req, db)
    ensures UploadsCarry(t.log, StoredName(req, Artifact(req, db)))
    ensures t.result.Err? ==> t.result.error.Runtime? && t.result.error.context == BackupError
    ensures !FailureNoticeSent(t.log)
    ensures SuccessNoticeSent(t.log) <==> t.result.Ok? && NotifyEnabled(req)
    ensures t.result.Ok? && req.path != "" ==> req.path in t.fs && t.fs[req.path] == fs[req.path]
    ensures t.result.Ok? && req.compress ==>
              var archive := ArchivePath(req.path, db);
              && IsFile(t.fs, archive) && t.fs[archive] == File(ArchiveContent(req.path, fs[req.path]))
              && (req.encrypt ==> IsFile(t.fs, archive + ".enc") && t.fs[archive + ".enc"] == File(Cipher(w.key, ArchiveContent(req.path, fs[req.path]))))
  {
    if req.compress then ArchiveThenStore(req, w, fs, db, argv)
    else
      assert |req.path| < |req.path + ".enc"|;
      Returning(StoredAfterRun(req, w, fs, req.path, argv, req.path), req.path)
  }

  /** The compressing branch: archive the folder into itself, then store
      the archive. */
  function ArchiveThenStore(req: BackupRequest, w: World, fs: Fs, db: string, argv: seq<string>): (t: Traced<Path>)
    requires req.path == "" || IsDir(fs, req.path)
    ensures t.log != [] && t.log[0] == Ran(argv)
    ensures t.result.Ok? <==>
              && req.path != "" && !IsDir(fs, ArchivePath(req.path, db))
              && (req.encrypt ==> !IsDir(fs, ArchivePath(req.path, db) + ".enc"))
              && Stores(req, w, ArchivePath(req.path, db))
    ensures t.result.Ok? ==> t.result.value == ArchivePath(req.path, db)
    ensures UploadsCarry(t.log, StoredName(req, ArchivePath(req.path, db)))
    ensures t.result.Err? ==> t.result.error.Runtime? && t.result.error.context == BackupError
    ensures !FailureNoticeSent(t.log)
    ensures SuccessNoticeSent(t.log) <==> t.result.Ok? && NotifyEnabled(req)
    ensures t.result.Ok? ==> req.path in t.fs && t.fs[req.path] == fs[req.path]
    ensures t.result.Ok? ==>
              var archive := ArchivePath(req.path, db);
              && IsFile(t.fs, archive) && t.fs[archive] == File(ArchiveContent(req.path, fs[req.path]))
              && (req.encrypt ==> IsFile(t.fs, archive + ".enc") && t.fs[archive + ".enc"] == File(Cipher(w.key, ArchiveContent(req.path, fs[req.path]))))
  {
    match Archive(fs, req.path, db)
    case Err(e) =>
      RanPrefix(argv, [], None);
      Traced(Err(Runtime(BackupError, e)), fs, [Ran(argv)])
    case Ok(fs1) => StoreArchive(req, w, fs1, db, argv)
  }

  /** `compress_backup_tar_folder(path, path/<db>.tar.gz)`: the archive of
      the dump folder, written inside that folder. */
  function Archive(fs: Fs, path: Path, db: string): (r: Result<Fs>)
    requires path == "" || IsDir(fs, path)
    ensures r.Ok? <==> path != "" && !IsDir(fs, ArchivePath(path, db))
    ensures r.Ok? ==> IsDir(r.value, path) && r.value[path] == fs[path]
    ensures r.Ok? ==> IsFile(r.value, ArchivePath(path, db))
                      && r.value[ArchivePath(path, db)] == File(ArchiveContent(path, fs[path]))
    ensures r.Ok? ==> IsDir(r.value, ArchivePath(path, db) + ".enc") == IsDir(fs, ArchivePath(path, db) + ".enc")
  {
    var archive := ArchivePath(path, db);
    ArchiveNames(path, db);
    var (_, fs1) :- CompressBackupTarFolder(fs, path, archive);
    Unchanged(fs, fs1, archive, archive + ".enc");
    Unchanged(fs, fs1, archive, path);
    Ok(fs1)
  }

  /** Storing the archive once it sits inside the dump folder. */
  function StoreArchive(req: BackupRequest, w: World, fs: Fs, db: string, argv: seq<string>): (t: Traced<Path>)
    requires IsDir(fs, req.path) && IsFile(fs, ArchivePath(req.path, db))
    ensures t.log != [] && t.log[0] == Ran(argv)
    ensures t.result.Ok? <==>
              (req.encrypt ==> !IsDir(fs, ArchivePath(req.path, db) + ".enc")) && Stores(req, w, ArchivePath(req.path, db))
    ensures t.result.Ok? ==> t.result.value == ArchivePath(req.path, db)
    ensures UploadsCarry(t.log, StoredName(req, ArchivePath(req.path, db)))
    ensures t.result.Err? ==> t.result.error.Runtime? && t.result.error.context == BackupError
    ensures !FailureNoticeSent(t.log)
    ensures SuccessNoticeSent(t.log) <==> t.result.Ok? && NotifyEnabled(req)
    ensures t.result.Ok? ==>
              var archive := ArchivePath(req.path, db);
              && req.path in t.fs && t.fs[req.path] == fs[req.path]
              && archive in t.fs && t.fs[archive] == fs[archive]
              && (req.encrypt ==> IsFile(t.fs, archive + ".enc") && t.fs[archive + ".enc"] == File(Cipher(w.key, fs[archive].data)))
  {
    var archive := ArchivePath(req.path, db);
    ArchiveNames(req.path, db);
    var t := StoredAfterRun(req, w, fs, archive, argv, archive);
    assert t.result.Ok? ==> t.fs[req.path] == fs[req.path];
    Returning(t, archive)
  }

  /** Encrypting an uncompressed dump always fails, since the dump folder
      cannot be read as a file; the archive is what gets encrypted. */
  lemma EncryptNeedsCompress(cfg: Config, req: BackupRequest, w: World, fs: Fs)
    requires req.encrypt && !req.compress
    ensures Backup(cfg, req, w, fs).result.Err?
  {
  }

  /** The archive and its ".enc" sibling are distinct from the dump folder
      and from each other. */
  lemma ArchiveNames(path: Path, db: string)
    ensures path != ArchivePath(path, db) && path != ArchivePath(path, db) + ".enc"
    ensures ArchivePath(path, db) != ArchivePath(path, db) + ".enc"
  {
    assert |path| < |ArchivePath(path, db)| < |ArchivePath(path, db) + ".enc"|;
  }

  /** The outcome of the shared tail, with `backup`'s own return value. */
  function Returning(t: Traced<Option<Path>>, artifact: Path): (r: Traced<Path>)
    ensures r.fs == t.fs && r.log == t.log
    ensures r.result.Ok? <==> t.result.Ok?
    ensures r.result.Ok? ==> r.result.value == artifact
    ensures r.result.Err? ==> r.result.error == t.result.error
  {
    Traced(if t.result.Ok? then Ok(artifact) else Err(t.result.error), t.fs, t.log)
  }

  /** `restore`: decrypt (the name must end in ".enc"), unpack the
      ".tar.gz" archive next to itself, require `mongorestore`, and restore
      from the folder name derived from the archive name. */
  function Restore(cfg: Config, backupFile: Path, w: World, fs: Fs): (t: Traced<()>)
    ensures !EndsWith(backupFile, ".enc") ==>
              t == Traced(Err(Runtime(RestoreError, ValueError(NotEnc))), fs, [])
    ensures !EndsWith(backupFile, ".tar.gz.enc") ==> t.result.Err? && t.log == []
    ensures t.result.Err? ==> t.result.error.Runtime? && t.result.error.context in {RestoreFailed, RestoreError}
    ensures (t.result.Err? && t.result.error.context == RestoreFailed) ==>
              t.result.error.cause == CalledProcessError(w.exitStatus)
    ensures "mongorestore" !in w.onPath || cfg.database.None? ==> t.result.Err? && t.log == []
    ensures t.log != [] ==>
              && EndsWith(backupFile, ".tar.gz.enc") && cfg.database.Some?
              && t.log == [Ran(RestoreArgv(cfg, cfg.database.value, TarFolderTarget(DropLast(backupFile, 4))))]
    ensures t.result.Ok? ==> t.log != []
    ensures var d := DecryptFile(w.key, fs, backupFile);
            t.result.Ok? <==>
              && d.Ok? && DecompressBackupTarFolder(d.value.1, d.value.0).Ok?
              && "mongorestore" in w.onPath && cfg.database.Some? && w.exitStatus == 0
    ensures var d := DecryptFile(w.key, fs, backupFile);
            d.Ok? && DecompressBackupTarFolder(d.value.1, d.value.0).Ok?
            && "mongorestore" in w.onPath && cfg.database.Some? ==>
              && t.log != []
              && t.fs == DecompressBackupTarFolder(d.value.1, d.value.0).value.1
  {
    match DecryptFile(w.key, fs, backupFile)
    case Err(e) => Traced(Err(Runtime(RestoreError, e)), fs, [])
    case Ok((archive, fs1)) =>
      TarGzEncName(backupFile);
      match DecompressBackupTarFolder(fs1, archive)
      case Err(e) => Traced(Err(Runtime(RestoreError, e)), fs1, [])
      case Ok((folder, fs2)) =>
        var r := RunRestore(cfg, folder, w);
        Traced(r.result, fs2, r.log)
  }

  /** The part of `restore` after unpacking. */
  function RunRestore(cfg: Config, folder: Path, w: World): (r: Logged<()>)
    ensures "mongorestore" !in w.onPath ==> r == Logged(Err(Runtime(RestoreError, FileNotFound("mongorestore"))), [])
    ensures "mongorestore" in w.onPath && cfg.database.None? ==> r == Logged(Err(Runtime(RestoreError, TypeError)), [])
    ensures r.log != [] ==> cfg.database.Some? && r.log == [Ran(RestoreArgv(cfg, cfg.database.value, folder))]
    ensures r.result.Ok? <==> "mongorestore" in w.onPath && cfg.database.Some? && w.exitStatus == 0
    ensures r.result.Ok? ==> r.log != []
    ensures r.result.Err? ==> r.result.error.Runtime? && r.result.error.context in {RestoreFailed, RestoreError}
    ensures (r.result.Err? && r.result.error.context == RestoreFailed) <==>
              "mongorestore" in w.onPath && cfg.database.Some? && w.exitStatus != 0
    ensures (r.result.Err? && r.result.error.context == RestoreFailed) ==>
              r.result.error.cause == CalledProcessError(w.exitStatus)
  {
    if "mongorestore" !in w.onPath then Logged(Err(Runtime(RestoreError, FileNotFound("mongorestore"))), [])
    else
      match cfg.database
      case None => Logged(Err(Runtime(RestoreError, TypeError)), [])
      case Some(db) =>
        var argv := RestoreArgv(cfg, db, folder);
        match RunTool(w, argv)
        case Err(e) => Logged(Err(Runtime(RestoreFailed, e)), [Ran(argv)])
        case Ok(_) => Logged(Ok(()), [Ran(argv)])
  }

  /** A name passes both of `restore`'s suffix checks exactly when it ends
      in ".tar.gz.enc". */
  lemma TarGzEncName(p: Path)
    ensures EndsWith(p, ".enc") && EndsWith(DropLast(p, 4), ".tar.gz") <==> EndsWith(p, ".tar.gz.enc")
  {
    if EndsWith(p, ".enc") {
      var q := DropLast(p, 4);
      assert p == q + ".enc";
      EndsWithCancel(q, ".tar.gz", ".enc");
      assert ".tar.gz" + ".enc" == ".tar.gz.enc";
    }
  }
}
