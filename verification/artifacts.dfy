/** The abstract world the pipeline stages act on: artifact contents as
    tags instead of bytes, a flat filesystem from paths to entries, the
    outside environment (tools on PATH, the tool's exit status, the
    encryption key), and the log of externally visible events. */
module Artifacts {
  import opened Exceptions
  import opened PosixPath

  /** The process-wide Fernet key, as an opaque value. */
  type Key = nat

  /** What a file holds. `Gzip`, `Tar` and `Cipher` are the three codecs;
      `Raw` is whatever a dump tool produced; `Empty` is a file just
      truncated by `open(path, "w")`. */
  datatype Content =
    | Empty
    | Raw(id: nat)
    | Gzip(inner: Content)
    | Tar(name: string, member: Entry)
    | EmptyTar
    | Cipher(key: Key, inner: Content)

  /** A filesystem entry: a file, or a directory with an opaque tree. */
  datatype Entry = File(data: Content) | Dir(tree: Content)

  /** No entry has the empty name: `open("")` and every other call on ""
      fail with FileNotFoundError. */
  type Fs = m: map<Path, Entry> | "" !in m witness map[]

  predicate IsFile(fs: Fs, p: Path) {
    p in fs && fs[p].File?
  }

  predicate IsDir(fs: Fs, p: Path) {
    p in fs && fs[p].Dir?
  }

  /** `open(p, "w")` can create or truncate `p`: it is named and is not a
      directory. */
  predicate Writable(fs: Fs, p: Path) {
    p != "" && !IsDir(fs, p)
  }

  /** `fs'` differs from `fs` at most at `p`, which now exists. */
  predicate OnlyChanged(fs: Fs, fs': Fs, p: Path) {
    && fs'.Keys == fs.Keys + {p}
    && forall q :: q in fs && q != p ==> fs'[q] == fs[q]
  }

  /** A name other than the changed one looks the same afterwards. */
  lemma Unchanged(fs: Fs, fs': Fs, p: Path, q: Path)
    requires OnlyChanged(fs, fs', p) && q != p
    ensures q in fs' <==> q in fs
    ensures q in fs ==> fs'[q] == fs[q]
    ensures IsDir(fs', q) == IsDir(fs, q) && IsFile(fs', q) == IsFile(fs, q)
  {
  }

  /** Writing back what an entry already holds changes nothing. */
  lemma RewriteSame(fs: Fs, p: Path, e: Entry)
    requires p in fs && fs[p] == e
    ensures fs[p := e] == fs
  {
  }

  /** `open(p, "rb").read()`. */
  function ReadFile(fs: Fs, p: Path): (r: Result<Content>)
    ensures r.Ok? <==> IsFile(fs, p)
    ensures r.Ok? ==> r.value == fs[p].data
    ensures p !in fs ==> r == Err(FileNotFound(p))
  {
    if p !in fs then Err(FileNotFound(p))
    else if fs[p].Dir? then Err(IsADirectory(p))
    else Ok(fs[p].data)
  }

  /** `open(p, "w"/"wb")` followed by a write of `c`. The parent directory is
      assumed to exist. */
  function WriteFile(fs: Fs, p: Path, c: Content): (r: Result<Fs>)
    ensures r.Ok? <==> Writable(fs, p)
    ensures p == "" ==> r == Err(FileNotFound(p))
    ensures r.Ok? ==> OnlyChanged(fs, r.value, p) && r.value[p] == File(c)
  {
    if p == "" then Err(FileNotFound(p))
    else if IsDir(fs, p) then Err(IsADirectory(p))
    else Ok(fs[p := File(c)])
  }

  /** The parts of the environment a backup or restore depends on. */
  datatype World = World(
    onPath: set<string>,   // program names `shutil.which` finds
    exitStatus: int,       // the exit status of the one tool run
    dumped: Content,       // what the dump tool writes
    azureAccepts: bool,    // whether the Azure upload succeeds
    key: Key)              // the Fernet key

  /** `subprocess.run(argv, check=True)`: a missing executable raises
      FileNotFoundError, a non-zero exit CalledProcessError. */
  function RunTool(w: World, argv: seq<string>): (r: Result<()>)
    requires |argv| > 0
    ensures r.Ok? <==> argv[0] in w.onPath && w.exitStatus == 0
    ensures argv[0] !in w.onPath ==> r == Err(FileNotFound(argv[0]))
    ensures argv[0] in w.onPath && w.exitStatus != 0 ==> r == Err(CalledProcessError(w.exitStatus))
  {
    if argv[0] !in w.onPath then Err(FileNotFound(argv[0]))
    else if w.exitStatus != 0 then Err(CalledProcessError(w.exitStatus))
    else Ok(())
  }

  datatype Provider = Aws | Gcp | Azure

  /** The text of a Slack notification. */
  datatype Notice = BackupSucceeded(path: Path) | BackupFailedWith(code: int)

  /** What the outside world observes. */
  datatype Event =
    | Ran(argv: seq<string>)
    | UploadCalled(provider: Provider, bucket: string, file: Option<Path>)
    | Notified(url: string, notice: Notice)
    | DriverClosed

  /** An operation's outcome, the filesystem after it, and its events. */
  datatype Traced<+T> = Traced(result: Result<T>, fs: Fs, log: seq<Event>)

  /** An outcome and the filesystem it leaves, for a step that can fail
      after it has already written. */
  datatype Written<+T> = Written(result: Result<T>, fs: Fs)

  /** An outcome and its events, for operations that write no local file. */
  datatype Logged<+T> = Logged(result: Result<T>, log: seq<Event>)

  predicate NoUploads(log: seq<Event>) {
    log == [] || (!log[0].UploadCalled? && NoUploads(log[1..]))
  }

  predicate NoNotices(log: seq<Event>) {
    log == [] || (!log[0].Notified? && NoNotices(log[1..]))
  }
}
