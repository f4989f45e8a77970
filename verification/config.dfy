/** `src/config.py` carries its own copies of the tar-folder codec. They are
    modelled here as written and shown to behave exactly like the ones in
    `src/utils/compression.py`. */
module TarConfig {
  import opened Strings
  import opened PosixPath
  import opened Exceptions
  import opened Artifacts
  import Compression

  /** `compress_backup_tar`: one entry named by the normalised basename of
      the source, and the output name handed back. */
  function CompressBackupTar(fs: Fs, backupFile: Path, outputFile: Path): (r: Result<(Path, Fs)>)
    ensures r.Ok? <==> Writable(fs, outputFile) && (backupFile == outputFile || backupFile in fs)
    ensures r.Ok? ==> r.value.0 == outputFile && OnlyChanged(fs, r.value.1, outputFile)
    ensures r.Ok? && backupFile != outputFile ==>
              r.value.1[outputFile] == File(Gzip(Tar(Basename(Normpath(backupFile)), fs[backupFile])))
  {
    if outputFile == "" then Err(FileNotFound(outputFile))
    else if IsDir(fs, outputFile) then Err(IsADirectory(outputFile))
    else if backupFile == outputFile then Ok((outputFile, fs[outputFile := File(Gzip(EmptyTar))]))
    else if backupFile !in fs then Err(FileNotFound(backupFile))
    else
      var entry := Tar(Basename(Normpath(backupFile)), fs[backupFile]);
      Ok((outputFile, fs[outputFile := File(Gzip(entry))]))
  }

  /** `decompress_backup_tar`: only ".tar.gz" names are accepted; the
      result is the archive's directory joined with its basename stripped of
      two extensions. */
  function DecompressBackupTar(fs: Fs, backupFile: Path): (r: Result<(Path, Fs)>)
    ensures !EndsWith(backupFile, ".tar.gz") ==> r == Err(ValueError(NotTarGz))
    ensures r.Ok? ==>
              r.value.0 == Join(Dirname(backupFile), Splitext(Splitext(Basename(backupFile)).0).0)
    ensures r.Ok? ==> IsFile(fs, backupFile) && fs[backupFile].data.Gzip?
  {
    if !EndsWith(backupFile, ".tar.gz") then Err(ValueError(NotTarGz))
    else
      var extraction := Dirname(backupFile);
      var archived :- ReadFile(fs, backupFile);
      match archived
      case Gzip(Tar(name, member)) =>
        var target := Join(extraction, name);
        if !Compression.Extractable(fs, target, member) then Err(Compression.ExtractError(fs, target, member))
        else
          Ok((Join(extraction, Splitext(Splitext(Basename(backupFile)).0).0), fs[target := member]))
      case Gzip(EmptyTar) =>
        Ok((Join(extraction, Splitext(Splitext(Basename(backupFile)).0).0), fs))
      case _ => Err(TarReadError(backupFile))
  }

  /** Both copies of the folder compressor agree on every input. */
  lemma CompressCopiesAgree(fs: Fs, backupFile: Path, outputFile: Path)
    ensures CompressBackupTar(fs, backupFile, outputFile)
         == Compression.CompressBackupTarFolder(fs, backupFile, outputFile)
  {
  }

  /** Both copies of the folder decompressor agree on every input. */
  lemma DecompressCopiesAgree(fs: Fs, backupFile: Path)
    ensures DecompressBackupTar(fs, backupFile)
         == Compression.DecompressBackupTarFolder(fs, backupFile)
  {
    if EndsWith(backupFile, ".tar.gz") && IsFile(fs, backupFile) {
      match fs[backupFile].data
      case Gzip(Tar(name, member)) =>
        var target := Join(Dirname(backupFile), name);
        if Compression.Extractable(fs, target, member) {
          assert Compression.ExtractTarGz(fs, backupFile) == Ok(fs[target := member]);
        } else {
          assert Compression.ExtractTarGz(fs, backupFile) == Err(Compression.ExtractError(fs, target, member));
        }
      case Gzip(EmptyTar) =>
        assert Compression.ExtractTarGz(fs, backupFile) == Ok(fs);
      case _ =>
        assert Compression.ExtractTarGz(fs, backupFile).Err?;
    }
  }
}
