/** `store_locally` from `src/storage/local_storage.py`: create the
    destination directory if needed and move the artifact into it. */
module LocalStorage {
  import opened Strings
  import opened PosixPath
  import opened Exceptions
  import opened Artifacts

  /** Where `store_locally` moves `file` to. */
  function DestinationPath(file: Path, destination: Path): Path {
    Join(destination, Basename(file))
  }

  /** `os.makedirs(destination, exist_ok=True)`: an existing directory is
      accepted, an existing file or the empty name is not. Missing parents
      are not tracked by the flat filesystem. */
  function MakeDirs(fs: Fs, destination: Path): (r: Result<Fs>)
    ensures r.Ok? <==> destination != "" && !IsFile(fs, destination)
    ensures r.Ok? ==> IsDir(r.value, destination)
    ensures r.Ok? ==> r.value.Keys == fs.Keys + {destination}
    ensures r.Ok? ==> forall q :: q in fs ==> r.value[q] == fs[q]
  {
    if destination == "" then Err(FileNotFound(destination))
    else if IsFile(fs, destination) then Err(FileExists(destination))
    else if destination in fs then Ok(fs)
    else Ok(fs[destination := Dir(Empty)])
  }

  /** Where `shutil.move(src, dst)` puts `src`: inside `dst` when that is
      a directory other than `src`, otherwise at `dst` itself. */
  function MoveTarget(fs: Fs, src: Path, dst: Path): Path {
    if IsDir(fs, dst) && src != dst then Join(dst, Basename(src)) else dst
  }

  /** `shutil.move(src, dst)`: into `dst` when it is a directory (refusing
      to overwrite there), otherwise by renaming onto `dst`, which replaces a
      file of that name. A directory is never moved below itself. */
  function Move(fs: Fs, src: Path, dst: Path): (r: Result<Fs>)
    ensures r.Ok? ==> src in fs && MoveTarget(fs, src, dst) != ""
    ensures r.Ok? && MoveTarget(fs, src, dst) != src ==> r.value == Rename(fs, src, MoveTarget(fs, src, dst))
    ensures r.Ok? && MoveTarget(fs, src, dst) == src ==> r.value == fs
    ensures r.Ok? && IsDir(fs, dst) && src != dst ==> MoveTarget(fs, src, dst) !in fs
    ensures src in fs && dst != "" && !IsDir(fs, dst) && !IsDir(fs, src) ==> r.Ok?
  {
    var into := IsDir(fs, dst) && src != dst;
    var target := MoveTarget(fs, src, dst);
    if into && target in fs then Err(DestinationExists(target))
    else if src !in fs then Err(FileNotFound(src))
    else if target == "" then Err(FileNotFound(target))
    else if target == src then Ok(fs)
    else if IsDir(fs, src) && StartsWith(target + "/", src + "/") then Err(MoveIntoItself(src))
    else if IsDir(fs, src) && IsFile(fs, target) then Err(FileExists(target))
    else Ok(Rename(fs, src, target))
  }

  /** The entry at `src` now sits at `target`, and `src` is gone. */
  function Rename(fs: Fs, src: Path, target: Path): Fs
    requires src in fs && target != ""
  {
    (fs - {src})[target := fs[src]]
  }

  lemma RenameFacts(fs: Fs, src: Path, target: Path)
    requires src in fs && target != "" && src != target
    ensures Rename(fs, src, target).Keys == fs.Keys - {src} + {target}
    ensures Rename(fs, src, target)[target] == fs[src]
    ensures forall q :: q in fs && q != src && q != target ==> Rename(fs, src, target)[q] == fs[q]
  {
  }

  /** `store_locally`: every failure comes back as a RuntimeError. On
      success the file sits at the destination path and no longer at its old
      name, and nothing else changes except that the destination directory
      may have been created. */
  function StoreLocally(fs: Fs, file: Path, destination: Path): (r: Result<Fs>)
    ensures r.Err? ==> r.error.Runtime? && r.error.context == LocalStoreError
    ensures destination == "" || IsFile(fs, destination) ==> r.Err?
    ensures file !in fs && file != destination ==> r.Err?
    ensures var d := DestinationPath(file, destination);
            r.Ok? && file != destination && !IsDir(fs, d) && d != file && d != destination ==>
              && file in fs && d in r.value
              && r.value[d] == fs[file]
              && file !in r.value
              && r.value.Keys <= fs.Keys + {d, destination}
              && IsDir(r.value, destination)
              && forall q :: q in fs && q != file && q != d ==> q in r.value && r.value[q] == fs[q]
    ensures var d := DestinationPath(file, destination);
            (IsFile(fs, file) && destination != "" && !IsFile(fs, destination) && !IsDir(fs, d) && d != destination)
              ==> r.Ok?
  {
    match MakeDirs(fs, destination)
    case Err(e) => Err(Runtime(LocalStoreError, e))
    case Ok(fs1) =>
      match Move(fs1, file, DestinationPath(file, destination))
      case Err(e) => Err(Runtime(LocalStoreError, e))
      case Ok(fs2) => Ok(fs2)
  }

  /** Moving the stored file back to its old name undoes `store_locally`
      up to the destination directory it created. */
  lemma StoreLocallyUndo(fs: Fs, file: Path, destination: Path)
    requires IsFile(fs, file) && destination != "" && !IsFile(fs, destination)
    requires DestinationPath(file, destination) !in fs
    requires DestinationPath(file, destination) != destination
    ensures StoreLocally(fs, file, destination).Ok?
    ensures Move(StoreLocally(fs, file, destination).value, DestinationPath(file, destination), file)
            == MakeDirs(fs, destination)
  {
    var d := DestinationPath(file, destination);
    var fs1 := MakeDirs(fs, destination).value;
    var stored := StoreLocally(fs, file, destination).value;
    assert stored == Rename(fs1, file, d);
    assert (stored - {d})[file := stored[d]] == fs1;
  }
}
