/** End-to-end properties of the PostgreSQL and MongoDB handlers: what a
    `restore` of a `backup`'s own output actually hands to the restore
    tool. */
module RoundTrips {
  import opened Strings
  import opened PosixPath
  import opened Exceptions
  import opened Artifacts
  import opened Compression
  import opened Encryption
  import opened BackupStages
  import Postgres
  import Mongo

  /** A ".dump" name is neither a ".tar", a ".gz" nor a ".sql" name. */
  lemma DumpSuffixes(p: Path)
    requires EndsWith(p, ".dump")
    ensures !EndsWith(p, ".tar") && !EndsWith(p, ".gz") && !EndsWith(p, ".sql") && !EndsWith(p, ".tar.gz")
  {
    SuffixesDisagree(p, ".dump", ".tar");
    SuffixesDisagree(p, ".dump", ".gz");
    SuffixesDisagree(p, ".dump", ".sql");
    SuffixesDisagree(p, ".dump", ".tar.gz");
  }

  /** The `pg_restore` command for a custom-format dump file. */
  function PgRestoreArgv(cfg: Postgres.Config, file: Path): seq<string> {
    ["pg_restore"] + Postgres.ConnectionArgs(cfg) + ["-v", file]
  }

  /** Without compression, restoring the encrypted name `backup` returns
      recovers the dump: `pg_restore` runs once on the dump's own path,
      which holds exactly what `pg_dump` wrote. */
  lemma {:induction false} PostgresPlainRoundTrip(cfg: Postgres.Config, req: BackupRequest, w: World, fs: Fs)
    requires !req.compress && req.encrypt && EndsWith(req.path, ".dump") && "pg_restore" in w.onPath
    requires Postgres.Backup(cfg, req, w, fs).result.Ok?
    ensures var b := Postgres.Backup(cfg, req, w, fs);
            && b.result.value == Some(req.path + ".enc")
            && var r := Postgres.Restore(cfg, req.path + ".enc", w, b.fs);
            && r.log == [Ran(PgRestoreArgv(cfg, req.path))]
            && IsFile(r.fs, req.path) && r.fs[req.path] == File(w.dumped)
            && (r.result.Ok? <==> w.exitStatus == 0)
  {
    var b := Postgres.Backup(cfg, req, w, fs);
    EncryptedNameRoundTrip(req.path);
    DumpSuffixes(req.path);
    var d := DecryptFile(w.key, b.fs, req.path + ".enc");
    assert d == Ok((req.path, b.fs[req.path := File(w.dumped)]));
    assert DecompressBackupFile(d.value.1, req.path) == Written(Ok(req.path), d.value.1);
  }

  /** A ".sql" name is neither a ".tar" nor a ".gz" name. */
  lemma SqlSuffixes(p: Path)
    requires EndsWith(p, ".sql")
    ensures !EndsWith(p, ".tar") && !EndsWith(p, ".gz") && !EndsWith(p, ".tar.gz")
  {
    SuffixesDisagree(p, ".sql", ".tar");
    SuffixesDisagree(p, ".sql", ".gz");
    SuffixesDisagree(p, ".sql", ".tar.gz");
  }

  /** A dump saved under a ".sql" name is still written in `pg_dump`'s
      custom format, yet restoring it replays the file with `psql`, which
      reads plain SQL only. */
  lemma {:induction false} PostgresSqlNameReplaysCustomDump(cfg: Postgres.Config, req: BackupRequest, w: World, fs: Fs)
    requires !req.compress && req.encrypt && EndsWith(req.path, ".sql") && "pg_restore" in w.onPath
    requires Postgres.Backup(cfg, req, w, fs).result.Ok?
    ensures var b := Postgres.Backup(cfg, req, w, fs);
            && b.log[0] == Ran(Postgres.DumpArgv(cfg, req.path))
            && Postgres.DumpArgv(cfg, req.path)[14..] == ["-F", "c"]
            && var r := Postgres.Restore(cfg, req.path + ".enc", w, b.fs);
            && r.log == [Ran(["psql"] + Postgres.ConnectionArgs(cfg) + ["-f", req.path])]
            && IsFile(r.fs, req.path) && r.fs[req.path] == File(w.dumped)
  {
    var b := Postgres.Backup(cfg, req, w, fs);
    EncryptedNameRoundTrip(req.path);
    SqlSuffixes(req.path);
    var d := DecryptFile(w.key, b.fs, req.path + ".enc");
    assert d == Ok((req.path, b.fs[req.path := File(w.dumped)]));
    assert DecompressBackupFile(d.value.1, req.path) == Written(Ok(req.path), d.value.1);
  }

  /** With compression, the same restore does not recover the dump: the
      ".gz" artifact is a tar archive, the restore path only gunzips it, and
      `pg_restore` is handed the dump's path holding a tar archive that
      contains the dump. */
  lemma PostgresCompressedRestoreGetsArchive(cfg: Postgres.Config, req: BackupRequest, w: World, fs: Fs)
    requires req.compress && req.encrypt && EndsWith(req.path, ".dump") && "pg_restore" in w.onPath
    requires Postgres.Backup(cfg, req, w, fs).result.Ok?
    ensures var b := Postgres.Backup(cfg, req, w, fs);
            && b.result.value == Some(req.path + ".gz.enc")
            && var r := Postgres.Restore(cfg, req.path + ".gz.enc", w, b.fs);
            && r.log == [Ran(PgRestoreArgv(cfg, req.path))]
            && IsFile(r.fs, req.path) && r.fs[req.path] == File(Tar(Basename(req.path), File(w.dumped)))
            && r.fs[req.path] != File(w.dumped)
  {
    var b := Postgres.Backup(cfg, req, w, fs);
    Postgres.ArchiveNames(req.path);
    assert b.fs[req.path + ".gz.enc"] == File(Cipher(w.key, Gzip(Tar(Basename(req.path), File(w.dumped)))));
    RestoreOfGzippedArchive(cfg, req.path, Tar(Basename(req.path), File(w.dumped)), w, b.fs);
  }

  /** Restoring "<p>.gz.enc" whose plaintext is gzip of `inner` leaves
      `inner` at `p` and runs `pg_restore` on `p`, for a ".dump" name `p`
      that is a file. */
  lemma {:induction false} RestoreOfGzippedArchive(cfg: Postgres.Config, p: Path, inner: Content, w: World, fs: Fs)
    requires EndsWith(p, ".dump") && "pg_restore" in w.onPath
    requires IsFile(fs, p) && !IsDir(fs, p + ".gz")
    requires IsFile(fs, p + ".gz.enc") && fs[p + ".gz.enc"] == File(Cipher(w.key, Gzip(inner)))
    ensures var r := Postgres.Restore(cfg, p + ".gz.enc", w, fs);
            && r.log == [Ran(PgRestoreArgv(cfg, p))]
            && IsFile(r.fs, p) && r.fs[p] == File(inner)
  {
    var gz := p + ".gz";
    Postgres.ArchiveNames(p);
    EncryptedNameRoundTrip(gz);
    DumpSuffixes(p);
    EndsWithCancel(p, ".tar", ".gz");
    assert ".tar" + ".gz" == ".tar.gz";
    EndsWithAppend(p, ".gz");
    DropLastAppend(p, ".gz");
    var d := DecryptFile(w.key, fs, gz + ".enc");
    assert d == Ok((gz, fs[gz := File(Gzip(inner))]));
    var fs1 := d.value.1;
    assert fs1[p] == fs[p];
    assert DecompressBackupFile(fs1, gz) == Written(Ok(p), fs1[p := File(inner)]);
  }

  /** What MongoDB's `backup` returns is never a name its `restore`
      accepts: the archive name ends in ".tar.gz" and the dump folder (when
      its name does not end in ".enc") lacks the suffix too. */
  lemma MongoReturnedNameNotRestorable(cfg: Mongo.Config, req: BackupRequest, w: World, fs: Fs, later: Fs)
    requires req.compress || !EndsWith(req.path, ".enc")
    requires Mongo.Backup(cfg, req, w, fs).result.Ok?
    ensures var b := Mongo.Backup(cfg, req, w, fs);
            Mongo.Restore(cfg, b.result.value, w, later)
              == Traced(Err(Runtime(RestoreError, ValueError(NotEnc))), later, [])
  {
    var name := Mongo.Backup(cfg, req, w, fs).result.value;
    assert name == Mongo.Artifact(req, cfg.database.value);
    if req.compress {
      var db := cfg.database.value;
      assert name == req.path + "/" + db + ".tar.gz";
      EndsWithAppend(req.path + "/" + db, ".tar.gz");
      SuffixesDisagree(name, ".tar.gz", ".enc");
    }
    assert !EndsWith(name, ".enc");
  }

  /** The folder MongoDB's `restore` passes to `mongorestore` for the
      archive of dump folder `P` and database `D` is `P/D`, while unpacking
      the archive recreates the folder as `P/<last component of P>`, failing
      only when a file already has that name. The restore reads the unpacked
      dump only when that component is `D`. */
  lemma MongoArchiveRestoreFolder(fs: Fs, p: Path, db: string)
    requires !AllSlashes(p) && '/' !in db && HasNonDotIn(db, 0, |db|)
    requires CompressBackupTarFolder(fs, p, Mongo.ArchivePath(p, db)).Ok?
    ensures var archive := Mongo.ArchivePath(p, db);
            var fs1 := CompressBackupTarFolder(fs, p, archive).value.1;
            var unpacked := Join(RStripSlashes(p), FolderEntryName(p));
            var d := DecompressBackupTarFolder(fs1, archive);
            && (d.Ok? <==> Extractable(fs1, unpacked, fs[p]))
            && (d.Ok? ==> d.value.0 == RStripSlashes(p) + "/" + db && d.value.1 == fs1[unpacked := fs[p]])
            && (RStripSlashes(p) + "/" + db == unpacked <==> FolderEntryName(p) == db)
  {
    var archive := Mongo.ArchivePath(p, db);
    ArchivePathParts(p, db);
    FolderArchiveRoundTrip(fs, p, archive);
  }

  /** Restoring the ciphertext of a MongoDB archive "P/D.tar.gz" of
      `folder`: it succeeds exactly when `mongorestore` is present and exits
      0 and the folder can be unpacked as "P/<last component of P>"; the
      tool then reads "P/D". */
  lemma {:induction false} MongoRestoreOfEncryptedArchive(cfg: Mongo.Config, p: Path, db: string, w: World,
                                                          fs: Fs, folder: Entry)
    requires !AllSlashes(p) && '/' !in db && HasNonDotIn(db, 0, |db|) && cfg.database == Some(db)
    requires var a := Mongo.ArchivePath(p, db);
             && IsFile(fs, a) && fs[a] == File(Mongo.ArchiveContent(p, folder))
             && IsFile(fs, a + ".enc") && fs[a + ".enc"] == File(Cipher(w.key, Mongo.ArchiveContent(p, folder)))
    ensures var t := Mongo.Restore(cfg, Mongo.ArchivePath(p, db) + ".enc", w, fs);
            var unpacked := Join(RStripSlashes(p), FolderEntryName(p));
            && (t.result.Ok? <==> "mongorestore" in w.onPath && w.exitStatus == 0 && Extractable(fs, unpacked, folder))
            && ("mongorestore" in w.onPath && Extractable(fs, unpacked, folder) ==>
                  && t.log == [Ran(Mongo.RestoreArgv(cfg, db, RStripSlashes(p) + "/" + db))]
                  && OnlyChanged(fs, t.fs, unpacked) && t.fs[unpacked] == folder)
  {
    var a := Mongo.ArchivePath(p, db);
    var unpacked := Join(RStripSlashes(p), FolderEntryName(p));
    DecryptStoredArchive(w.key, fs, a, Mongo.ArchiveContent(p, folder));
    UnpackArchive(p, db, fs, folder);
    var x := DecompressBackupTarFolder(fs, a);
    assert "mongorestore" in w.onPath && x.Ok? ==> Mongo.Restore(cfg, a + ".enc", w, fs).fs == x.value.1;
  }

  /** Decrypting the ciphertext stored next to a file that already holds the
      plaintext leaves the filesystem as it was. */
  lemma DecryptStoredArchive(key: Key, fs: Fs, a: Path, c: Content)
    requires IsFile(fs, a) && fs[a] == File(c) && IsFile(fs, a + ".enc") && fs[a + ".enc"] == File(Cipher(key, c))
    ensures DecryptFile(key, fs, a + ".enc") == Ok((a, fs))
  {
    EndsWithAppend(a, ".enc");
    DropLastAppend(a, ".enc");
    RewriteSame(fs, a, File(c));
  }

  /** Unpacking the archive "P/D.tar.gz" of `folder` recreates it as
      "P/<last component of P>" and reports "P/D". */
  lemma UnpackArchive(p: Path, db: string, fs: Fs, folder: Entry)
    requires !AllSlashes(p) && '/' !in db && HasNonDotIn(db, 0, |db|)
    requires IsFile(fs, Mongo.ArchivePath(p, db)) && fs[Mongo.ArchivePath(p, db)] == File(Mongo.ArchiveContent(p, folder))
    ensures var x := DecompressBackupTarFolder(fs, Mongo.ArchivePath(p, db));
            var unpacked := Join(RStripSlashes(p), FolderEntryName(p));
            && (x.Ok? <==> Extractable(fs, unpacked, folder))
            && (x.Ok? ==> x.value.0 == RStripSlashes(p) + "/" + db
                          && OnlyChanged(fs, x.value.1, unpacked) && x.value.1[unpacked] == folder)
  {
    var a := Mongo.ArchivePath(p, db);
    ArchivePathParts(p, db);
    var c := fs[a].data;
    assert c == Gzip(Tar(FolderEntryName(p), folder));
    assert Join(Dirname(a), c.inner.name) == Join(RStripSlashes(p), FolderEntryName(p));
    var e := ExtractTarGz(fs, a);
    assert e.Ok? <==> Extractable(fs, Join(RStripSlashes(p), FolderEntryName(p)), folder);
  }

  /** The ciphertext a compressed, encrypted MongoDB `backup` stores is a
      name its `restore` accepts: with `mongorestore` present it succeeds
      exactly when nothing blocks unpacking the dump as
      "P/<last component of P>", and then restores from "P/D", where that
      unpacked folder holds the dump. */
  lemma MongoBackupThenRestore(cfg: Mongo.Config, req: BackupRequest, w: World, fs: Fs)
    requires req.compress && req.encrypt && cfg.database.Some?
    requires !AllSlashes(req.path) && '/' !in cfg.database.value && HasNonDotIn(cfg.database.value, 0, |cfg.database.value|)
    requires Mongo.Backup(cfg, req, w, fs).result.Ok?
    ensures var db := cfg.database.value;
            var b := Mongo.Backup(cfg, req, w, fs);
            var stored := Mongo.ArchivePath(req.path, db) + ".enc";
            var unpacked := Join(RStripSlashes(req.path), FolderEntryName(req.path));
            var t := Mongo.Restore(cfg, stored, w, b.fs);
            && StoredName(req, b.result.value) == Some(stored)
            && (t.result.Ok? <==> "mongorestore" in w.onPath && Extractable(b.fs, unpacked, Dir(w.dumped)))
            && (t.result.Ok? ==>
                  && t.log == [Ran(Mongo.RestoreArgv(cfg, db, RStripSlashes(req.path) + "/" + db))]
                  && IsDir(t.fs, unpacked) && t.fs[unpacked] == Dir(w.dumped))
  {
    var b := Mongo.Backup(cfg, req, w, fs);
    MongoBackupLeavesCiphertext(cfg, req, w, fs);
    MongoRestoreOfEncryptedArchive(cfg, req.path, cfg.database.value, w, b.fs, Dir(w.dumped));
  }

  /** A compressed, encrypted MongoDB `backup` leaves the archive of the dump
      and its ciphertext side by side. */
  lemma MongoBackupLeavesCiphertext(cfg: Mongo.Config, req: BackupRequest, w: World, fs: Fs)
    requires req.compress && req.encrypt
    requires Mongo.Backup(cfg, req, w, fs).result.Ok?
    ensures var b := Mongo.Backup(cfg, req, w, fs);
            var a := Mongo.ArchivePath(req.path, cfg.database.value);
            var content := Mongo.ArchiveContent(req.path, Dir(w.dumped));
            && cfg.database.Some? && w.exitStatus == 0 && b.result.value == a
            && IsFile(b.fs, a) && b.fs[a] == File(content)
            && IsFile(b.fs, a + ".enc") && b.fs[a + ".enc"] == File(Cipher(w.key, content))
  {
  }

  /** The name facts about "P/D.tar.gz" the restore path depends on. */
  lemma ArchivePathParts(p: Path, db: string)
    requires !AllSlashes(p) && '/' !in db && HasNonDotIn(db, 0, |db|)
    ensures var archive := Mongo.ArchivePath(p, db);
            && p != archive && EndsWith(archive, ".tar.gz")
            && Dirname(archive) == RStripSlashes(p)
            && StripTwoExtensions(Basename(archive)) == db
            && TarFolderTarget(archive) == RStripSlashes(p) + "/" + db
  {
    var archive := Mongo.ArchivePath(p, db);
    assert archive == p + "/" + db + ".tar.gz";
    assert |p| < |archive|;
    EndsWithAppend(p + "/" + db, ".tar.gz");
    TarFolderTargetOfChild(p, db);
  }

  /** Cloud storage succeeds only through Azure and only with a name to
      upload: without encryption that name is the caller's
      `encrypted_file`, so a plain cloud backup that passes none always
      fails. */
  lemma PostgresCloudNeedsAzure(cfg: Postgres.Config, req: BackupRequest, w: World, fs: Fs)
    requires req.storage == "cloud"
    ensures Postgres.Backup(cfg, req, w, fs).result.Ok? ==>
              req.provider == Some("azure") && w.azureAccepts && (req.encrypt || req.encryptedFile.Some?)
    ensures !req.encrypt && req.encryptedFile.None? ==> Postgres.Backup(cfg, req, w, fs).result.Err?
  {
  }
}
