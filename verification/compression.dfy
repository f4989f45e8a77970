/** The archive codec of `src/utils/compression.py`: plain gzip of one file,
    tar+gzip of a file or a folder, and the two decompressors whose output
    names are derived from the input name by suffix rules. */
module Compression {
  import opened Strings
  import opened PosixPath
  import opened Exceptions
  import opened Artifacts

  // ----- compress -----

  /** `compress_backup`: gzip `backupFile` into `outputFile` and return
      `outputFile`. The source is opened before the output; naming the source
      as its own output truncates it before it is read. */
  function CompressBackup(fs: Fs, backupFile: Path, outputFile: Path): (r: Result<(Path, Fs)>)
    ensures r.Ok? <==> IsFile(fs, backupFile) && Writable(fs, outputFile)
    ensures r.Ok? ==> r.value.0 == outputFile && OnlyChanged(fs, r.value.1, outputFile)
    ensures r.Ok? && outputFile != backupFile ==>
              r.value.1[outputFile] == File(Gzip(fs[backupFile].data))
    ensures r.Ok? && outputFile == backupFile ==> r.value.1[outputFile] == File(Gzip(Empty))
  {
    var data :- ReadFile(fs, backupFile);
    var fs' :- WriteFile(fs, outputFile, if outputFile == backupFile then Gzip(Empty) else Gzip(data));
    Ok((outputFile, fs'))
  }

  /** `tarfile.open(output, "w:gz")` then `tar.add(source, arcname=name)`.
      The output is created first; `tarfile` skips the archive itself, so
      archiving a path into itself yields an archive with no member. */
  function WriteTarGz(fs: Fs, source: Path, output: Path, arcname: string): (r: Result<Fs>)
    ensures r.Ok? <==> Writable(fs, output) && (source == output || source in fs)
    ensures r.Ok? ==> OnlyChanged(fs, r.value, output)
    ensures r.Ok? && source != output ==> r.value[output] == File(Gzip(Tar(arcname, fs[source])))
    ensures r.Ok? && source == output ==> r.value[output] == File(Gzip(EmptyTar))
  {
    if output == "" then Err(FileNotFound(output))
    else if IsDir(fs, output) then Err(IsADirectory(output))
    else if source == output then Ok(fs[output := File(Gzip(EmptyTar))])
    else if source !in fs then Err(FileNotFound(source))
    else Ok(fs[output := File(Gzip(Tar(arcname, fs[source])))])
  }

  /** The archive entry name `compress_backup_tar_folder` uses. */
  function FolderEntryName(source: Path): string {
    Basename(Normpath(source))
  }

  /** `compress_backup_tar_file`: the single entry is named by the plain
      basename of the source. */
  function CompressBackupTarFile(fs: Fs, backupFile: Path, outputFile: Path): (r: Result<(Path, Fs)>)
    ensures r.Ok? <==> Writable(fs, outputFile) && (backupFile == outputFile || backupFile in fs)
    ensures r.Ok? ==> r.value.0 == outputFile && OnlyChanged(fs, r.value.1, outputFile)
    ensures r.Ok? && backupFile != outputFile ==>
              r.value.1[outputFile] == File(Gzip(Tar(Basename(backupFile), fs[backupFile])))
  {
    var fs' :- WriteTarGz(fs, backupFile, outputFile, Basename(backupFile));
    Ok((outputFile, fs'))
  }

  /** `compress_backup_tar_folder`: the single entry is named by the
      basename of the normalised source, so trailing slashes do not matter. */
  function CompressBackupTarFolder(fs: Fs, backupFile: Path, outputFile: Path): (r: Result<(Path, Fs)>)
    ensures r.Ok? <==> Writable(fs, outputFile) && (backupFile == outputFile || backupFile in fs)
    ensures r.Ok? ==> r.value.0 == outputFile && OnlyChanged(fs, r.value.1, outputFile)
    ensures r.Ok? && backupFile != outputFile ==>
              r.value.1[outputFile] == File(Gzip(Tar(FolderEntryName(backupFile), fs[backupFile])))
  {
    var fs' :- WriteTarGz(fs, backupFile, outputFile, FolderEntryName(backupFile));
    Ok((outputFile, fs'))
  }

  /** A trailing slash on the source leaves the folder entry name unchanged,
      while the file variant's entry name becomes empty. */
  lemma TrailingSlashEntryNames(source: Path)
    requires source != ""
    ensures FolderEntryName(source + "/") == FolderEntryName(source)
    ensures Basename(source + "/") == ""
  {
    BasenameNormpathTrailingSlash(source);
    BasenameTrailingSlash(source);
  }

  // ----- decompress -----

  /** `extractall` can place `member` at `target`: the name is not empty,
      a file does not land on a directory and a directory not on a file
      (`tarfile` raises on either clash and overwrites a file with a file). */
  predicate Extractable(fs: Fs, target: Path, member: Entry) {
    && target != ""
    && !(member.File? && IsDir(fs, target))
    && !(member.Dir? && IsFile(fs, target))
  }

  /** The error `extractall` raises for a member it cannot place. */
  function ExtractError(fs: Fs, target: Path, member: Entry): Exn {
    if target == "" then FileNotFound(target)
    else if member.File? then IsADirectory(target)
    else FileExists(target)
  }

  /** `tarfile.open(archive, "r:gz").extractall(dirname(archive))`: the
      member is written under the archive's directory. */
  function ExtractTarGz(fs: Fs, archive: Path): (r: Result<Fs>)
    ensures r.Ok? <==> IsFile(fs, archive) && fs[archive].data.Gzip? &&
                       (|| fs[archive].data.inner.EmptyTar?
                        || (fs[archive].data.inner.Tar? &&
                            Extractable(fs, Join(Dirname(archive), fs[archive].data.inner.name),
                                        fs[archive].data.inner.member)))
    ensures r.Ok? && fs[archive].data.inner.Tar? ==>
              var t := fs[archive].data.inner;
              OnlyChanged(fs, r.value, Join(Dirname(archive), t.name)) &&
              r.value[Join(Dirname(archive), t.name)] == t.member
    ensures r.Ok? && fs[archive].data.inner.EmptyTar? ==> r.value == fs
  {
    var c :- ReadFile(fs, archive);
    match c
    case Gzip(Tar(name, member)) =>
      var target := Join(Dirname(archive), name);
      if !Extractable(fs, target, member) then Err(ExtractError(fs, target, member))
      else Ok(fs[target := member])
    case Gzip(EmptyTar) => Ok(fs)
    case _ => Err(TarReadError(archive))
  }

  /** The name `decompress_backup_file` reports, by its suffix rules alone. */
  function DecompressedName(p: Path): Path {
    if EndsWith(p, ".tar.gz") then DropLast(p, 7)
    else if EndsWith(p, ".gz") then DropLast(p, 3)
    else p
  }

  /** Reading a gzip stream to its end: a zero-byte file reads as empty,
      anything but gzip data is refused. */
  function Gunzip(c: Content, p: Path): (r: Result<Content>)
    ensures r.Ok? <==> c.Gzip? || c.Empty?
    ensures c.Gzip? ==> r == Ok(c.inner)
    ensures c.Empty? ==> r == Ok(Empty)
  {
    match c
    case Gzip(inner) => Ok(inner)
    case Empty => Ok(Empty)
    case _ => Err(BadGzipFile(p))
  }

  /** `decompress_backup_file`: ".tar.gz" is checked first and extracted in
      place, then ".gz" is gunzipped into the name without it; any other
      name comes back unchanged. The gunzip target is opened (and so
      truncated) before the compressed stream is read, so a ".gz" file
      that is not gzip data leaves an empty file behind. */
  function DecompressBackupFile(fs: Fs, backupFile: Path): (r: Written<Path>)
    ensures EndsWith(backupFile, ".tar.gz") ==>
              && (r.result.Ok? <==> ExtractTarGz(fs, backupFile).Ok?)
              && (r.result.Ok? ==> r.result.value == DropLast(backupFile, 7)
                                   && ExtractTarGz(fs, backupFile) == Ok(r.fs))
              && (r.result.Err? ==> r.fs == fs)
    ensures !EndsWith(backupFile, ".tar.gz") && EndsWith(backupFile, ".gz") ==>
              r == GunzipFile(fs, backupFile, DropLast(backupFile, 3))
    ensures !EndsWith(backupFile, ".gz") ==> r == Written(Ok(backupFile), fs)
    ensures r.result.Ok? ==> r.result.value == DecompressedName(backupFile)
  {
    if EndsWith(backupFile, ".tar.gz") then
      match ExtractTarGz(fs, backupFile)
      case Err(e) => Written(Err(e), fs)
      case Ok(fs') => Written(Ok(DropLast(backupFile, 7)), fs')
    else if EndsWith(backupFile, ".gz") then
      GunzipFile(fs, backupFile, DropLast(backupFile, 3))
    else Written(Ok(backupFile), fs)
  }

  /** The ".gz" branch: read the compressed file, open (and so truncate) the
      target, then gunzip into it. */
  function GunzipFile(fs: Fs, backupFile: Path, name: Path): (r: Written<Path>)
    ensures r.result.Ok? <==> IsFile(fs, backupFile) && Writable(fs, name)
                              && Gunzip(fs[backupFile].data, backupFile).Ok?
    ensures r.result.Ok? ==>
              && r.result.value == name && OnlyChanged(fs, r.fs, name)
              && r.fs[name] == File(Gunzip(fs[backupFile].data, backupFile).value)
    ensures IsFile(fs, backupFile) && Writable(fs, name) && r.result.Err? ==>
              OnlyChanged(fs, r.fs, name) && r.fs[name] == File(Empty)
    ensures !(IsFile(fs, backupFile) && Writable(fs, name)) ==> r.result.Err? && r.fs == fs
  {
    match ReadFile(fs, backupFile)
    case Err(e) => Written(Err(e), fs)
    case Ok(c) =>
      match WriteFile(fs, name, Empty)
      case Err(e) => Written(Err(e), fs)
      case Ok(truncated) =>
        match Gunzip(c, backupFile)
        case Err(e) => Written(Err(e), truncated)
        case Ok(data) => Written(Ok(name), fs[name := File(data)])
  }

  /** The name `decompress_backup_file` reports for a gzip name built by
      appending ".gz": the original, unless it ended in ".tar", in which case
      the ".tar.gz" rule takes four more characters off. */
  lemma GzNameRoundTrip(p: Path)
    ensures !EndsWith(p, ".tar") ==> DecompressedName(p + ".gz") == p
    ensures EndsWith(p, ".tar") ==> DecompressedName(p + ".gz") == DropLast(p, 4)
  {
    EndsWithCancel(p, ".tar", ".gz");
    assert ".tar" + ".gz" == ".tar.gz";
    EndsWithAppend(p, ".gz");
    DropLastAppend(p, ".gz");
    if EndsWith(p, ".tar") {
      var q := DropLast(p, 4);
      assert p == q + ".tar";
      assert p + ".gz" == q + ".tar.gz";
      DropLastAppend(q, ".tar.gz");
    }
  }

  /** Gzipping a file into its ".gz" name and decompressing that name gives
      the file back under its own name, with nothing else changed, unless the
      name ends in ".tar" (the ".tar.gz" rule then applies instead). */
  lemma {:induction false} GzipRoundTrip(fs: Fs, p: Path)
    requires IsFile(fs, p) && !IsDir(fs, p + ".gz") && !EndsWith(p, ".tar")
    ensures CompressBackup(fs, p, p + ".gz").Ok?
    ensures var fs1 := CompressBackup(fs, p, p + ".gz").value.1;
            DecompressBackupFile(fs1, p + ".gz") == Written(Ok(p), fs1)
  {
    assert |p| < |p + ".gz"|;
    EndsWithCancel(p, ".tar", ".gz");
    assert ".tar" + ".gz" == ".tar.gz";
    EndsWithAppend(p, ".gz");
    DropLastAppend(p, ".gz");
    var fs1 := CompressBackup(fs, p, p + ".gz").value.1;
    assert fs1[p + ".gz"] == File(Gzip(fs[p].data));
    assert fs1[p] == fs[p];
    assert fs1[p := File(fs[p].data)] == fs1;
  }

  /** The folder `decompress_backup_tar_folder` reports: the archive's
      directory joined with its basename stripped of two extensions. */
  function TarFolderTarget(archive: Path): Path {
    Join(Dirname(archive), StripTwoExtensions(Basename(archive)))
  }

  /** `decompress_backup_tar_folder`: rejects non-".tar.gz" names before
      opening anything, extracts into the archive's directory, and returns a
      derived folder name without checking what was extracted. */
  function DecompressBackupTarFolder(fs: Fs, backupFile: Path): (r: Result<(Path, Fs)>)
    ensures !EndsWith(backupFile, ".tar.gz") ==> r == Err(ValueError(NotTarGz))
    ensures EndsWith(backupFile, ".tar.gz") ==> (r.Ok? <==> ExtractTarGz(fs, backupFile).Ok?)
    ensures r.Ok? ==> r.value.0 == TarFolderTarget(backupFile) && ExtractTarGz(fs, backupFile) == Ok(r.value.1)
  {
    if !EndsWith(backupFile, ".tar.gz") then Err(ValueError(NotTarGz))
    else
      var fs' :- ExtractTarGz(fs, backupFile);
      Ok((TarFolderTarget(backupFile), fs'))
  }

  /** ".../D.tar.gz" yields ".../D" for a folder name D holding something
      other than dots; the directory part loses its trailing slashes. */
  lemma TarFolderTargetOfChild(dir: Path, name: Path)
    requires !AllSlashes(dir)
    requires '/' !in name && HasNonDotIn(name, 0, |name|)
    ensures TarFolderTarget(dir + "/" + name + ".tar.gz") == RStripSlashes(dir) + "/" + name
    ensures Dirname(dir + "/" + name + ".tar.gz") == RStripSlashes(dir)
    ensures StripTwoExtensions(Basename(dir + "/" + name + ".tar.gz")) == name
  {
    var a := dir + "/" + (name + ".tar.gz");
    assert a == dir + "/" + name + ".tar.gz";
    assert '/' !in name + ".tar.gz";
    BasenameOfChild(dir, name + ".tar.gz");
    StripTwoExtensionsOfTarGz(name);
    DirnameOfChildStripped(dir, name + ".tar.gz");
  }

  /** A bare "D.tar.gz" yields "D". */
  lemma TarFolderTargetOfBareName(name: Path)
    requires '/' !in name && HasNonDotIn(name, 0, |name|)
    ensures TarFolderTarget(name + ".tar.gz") == name
  {
    assert '/' !in name + ".tar.gz";
    StripTwoExtensionsOfTarGz(name);
  }

  /** Extracting what `WriteTarGz` wrote puts the source entry back under
      the archive's directory with the entry name it was given. */
  lemma TarGzExtractsSource(fs: Fs, source: Path, archive: Path, name: string)
    requires source != archive
    requires WriteTarGz(fs, source, archive, name).Ok?
    ensures var fs1 := WriteTarGz(fs, source, archive, name).value;
            var target := Join(Dirname(archive), name);
            && (ExtractTarGz(fs1, archive).Ok? <==> Extractable(fs1, target, fs[source]))
            && (ExtractTarGz(fs1, archive).Ok? ==> ExtractTarGz(fs1, archive).value == fs1[target := fs[source]])
  {
  }

  /** Archiving a folder and decompressing the archive puts the folder back
      under the archive's directory with its entry name, while the reported
      folder is derived from the archive name; the two coincide exactly when
      the entry name equals the archive's stripped basename. Unpacking fails
      only when the folder would land on an existing file. */
  lemma FolderArchiveRoundTrip(fs: Fs, source: Path, archive: Path)
    requires source != archive
    requires EndsWith(archive, ".tar.gz")
    requires CompressBackupTarFolder(fs, source, archive).Ok?
    ensures var fs1 := CompressBackupTarFolder(fs, source, archive).value.1;
            var extracted := Join(Dirname(archive), FolderEntryName(source));
            var d := DecompressBackupTarFolder(fs1, archive);
            && (d.Ok? <==> Extractable(fs1, extracted, fs[source]))
            && (d.Ok? ==> d.value.0 == TarFolderTarget(archive) && d.value.1 == fs1[extracted := fs[source]])
            && (TarFolderTarget(archive) == extracted <==> StripTwoExtensions(Basename(archive)) == FolderEntryName(source))
  {
    var name := FolderEntryName(source);
    TarGzExtractsSource(fs, source, archive, name);
    var stripped := StripTwoExtensions(Basename(archive));
    SplitextPrefixHasNoSlash(Basename(archive));
    JoinInjective(Dirname(archive), stripped, name);
  }
}
