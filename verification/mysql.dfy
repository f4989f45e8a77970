/** `MySQLHandler`: a `mysqldump` run whose standard output is redirected
    into the backup file. No compression, encryption, storage or
    notification takes part. */
module MySql {
  import opened Strings
  import opened PosixPath
  import opened Exceptions
  import opened Artifacts
  import opened Connection

  /** The handler's `config` dictionary. */
  datatype Config = Config(host: string, user: string, password: string, database: string, port: int)

  const DefaultPort: int := 3306
  const DefaultBackupPath: Path := "backup.sql"

  /** `MySQLHandler(**kwargs)`: host, user, password and database are
      required; the port defaults to 3306. */
  function New(args: ConnArgs): (r: Result<Config>)
    ensures r.Ok? <==> args.host.Some? && args.user.Some? && args.password.Some? && args.database.Some?
    ensures r.Err? ==> r.error == TypeError
    ensures r.Ok? ==> r.value.database == args.database.value && r.value.host == args.host.value
                      && r.value.user == args.user.value && r.value.password == args.password.value
    ensures r.Ok? ==> r.value.port == if args.port.Some? then args.port.value else DefaultPort
  {
    if args.host.None? || args.user.None? || args.password.None? || args.database.None? then Err(TypeError)
    else
      Ok(Config(args.host.value, args.user.value, args.password.value, args.database.value,
                if args.port.Some? then args.port.value else DefaultPort))
  }

  /** The `mysqldump` command line. Unlike the PostgreSQL dump, the password
      is passed on it, and the output file is not. */
  function DumpArgv(cfg: Config): (argv: seq<string>)
    ensures |argv| == 9 && argv[0] == "mysqldump"
    ensures argv[1..7] == ["-h", cfg.host, "-P", IntToDecimal(cfg.port), "-u", cfg.user]
    ensures argv[7] == "--password=" + cfg.password && argv[8] == cfg.database
  {
    ["mysqldump", "-h", cfg.host, "-P", IntToDecimal(cfg.port), "-u", cfg.user,
     "--password=" + cfg.password, cfg.database]
  }

  /** `backup`: check for `mysqldump` before touching the file, truncate
      the file (`DefaultBackupPath` when the caller names none), and run the
      dump into it. A non-zero exit is "Backup failed";
      every other failure is a generic backup error. */
  function Backup(cfg: Config, backupPath: Path, w: World, fs: Fs): (t: Traced<()>)
    ensures "mysqldump" !in w.onPath ==>
              t == Traced(Err(Runtime(BackupError, FileNotFound("mysqldump"))), fs, [])
    ensures t.result.Err? ==> t.result.error.Runtime? && t.result.error.context in {BackupFailed, BackupError}
    ensures (t.result.Err? && t.result.error.context == BackupFailed) <==>
              "mysqldump" in w.onPath && Writable(fs, backupPath) && w.exitStatus != 0
    ensures t.result.Ok? <==> "mysqldump" in w.onPath && Writable(fs, backupPath) && w.exitStatus == 0
    ensures t.log != [] ==> t.log == [Ran(DumpArgv(cfg))]
    ensures t.result.Ok? ==> t.log != []
    ensures t.fs != fs ==> "mysqldump" in w.onPath && OnlyChanged(fs, t.fs, backupPath)
    ensures t.result.Ok? ==> IsFile(t.fs, backupPath) && t.fs[backupPath] == File(w.dumped)
    ensures t.result.Err? && t.log != [] ==> IsFile(t.fs, backupPath) && t.fs[backupPath] == File(Empty)
  {
    if "mysqldump" !in w.onPath then Traced(Err(Runtime(BackupError, FileNotFound("mysqldump"))), fs, [])
    else
      var argv := DumpArgv(cfg);
      match WriteFile(fs, backupPath, Empty)
      case Err(e) => Traced(Err(Runtime(BackupError, e)), fs, [])
      case Ok(fs1) =>
        match RunTool(w, argv)
        case Err(e) => Traced(Err(Runtime(BackupFailed, e)), fs1, [Ran(argv)])
        case Ok(_) => Traced(Ok(()), fs1[backupPath := File(w.dumped)], [Ran(argv)])
  }

  /** A call that names no file dumps into "backup.sql", with the same
      outcome as naming it. */
  lemma DefaultBackup(cfg: Config, w: World, fs: Fs)
    requires "mysqldump" in w.onPath && !IsDir(fs, DefaultBackupPath)
    ensures Backup(cfg, DefaultBackupPath, w, fs).result == if w.exitStatus == 0 then Ok(()) else Err(Runtime(BackupFailed, CalledProcessError(w.exitStatus)))
    ensures w.exitStatus == 0 ==> Backup(cfg, DefaultBackupPath, w, fs).fs == fs[DefaultBackupPath := File(w.dumped)]
  {
  }

  /** Running the same dump twice leaves what running it once left: the
      file is truncated and rewritten, never appended to. */
  lemma BackupIdempotent(cfg: Config, backupPath: Path, w: World, fs: Fs)
    requires Backup(cfg, backupPath, w, fs).result.Ok?
    ensures var fs1 := Backup(cfg, backupPath, w, fs).fs;
            Backup(cfg, backupPath, w, fs1) == Backup(cfg, backupPath, w, fs)
  {
    var fs1 := Backup(cfg, backupPath, w, fs).fs;
    assert fs1[backupPath := File(Empty)][backupPath := File(w.dumped)] == fs1;
  }
}
