/** The stages the PostgreSQL and MongoDB `backup` methods share once the
    dump exists: optional encryption, the storage step and the Slack
    notifications, with the handlers' error wrapping. */
module BackupStages {
  import opened PosixPath
  import opened Exceptions
  import opened Artifacts
  import opened CloudDispatch
  import Encryption

  /** The keyword arguments of a handler's `backup` call. `encryptedFile`
      is the `encrypted_file=None` parameter, which stands in for the stored
      name when encryption is off. */
  datatype BackupRequest = BackupRequest(
    compress: bool,
    storage: string,
    path: Path,
    notifySlack: bool,
    encrypt: bool,
    webhookUrl: Option<string>,
    provider: Option<string>,
    bucket: Option<string>,
    encryptedFile: Option<Path>)

  /** `notify_slack and slack_webhook_url`. */
  predicate NotifyEnabled(req: BackupRequest) {
    req.notifySlack && Truthy(req.webhookUrl)
  }

  /** The name handed to storage for a final artifact: its ".enc" sibling
      when encrypting, otherwise whatever the caller passed as
      `encrypted_file`. */
  function StoredName(req: BackupRequest, artifact: Path): Option<Path> {
    if req.encrypt then Some(artifact + ".enc") else req.encryptedFile
  }

  /** The storage step accepts the name stored for `artifact`. */
  predicate Stores(req: BackupRequest, w: World, artifact: Path) {
    HandleStorage(StoredName(req, artifact), req.storage, req.provider, req.bucket, w).result.Ok?
  }

  /** Encryption, when asked for, can read `artifact` and write its ".enc"
      sibling. */
  predicate Encryptable(req: BackupRequest, fs: Fs, artifact: Path) {
    req.encrypt ==> IsFile(fs, artifact) && !IsDir(fs, artifact + ".enc")
  }

  /** Some event in `log` is a "backup succeeded" notification. */
  predicate SuccessNoticeSent(log: seq<Event>) {
    log != [] && ((log[0].Notified? && log[0].notice.BackupSucceeded?) || SuccessNoticeSent(log[1..]))
  }

  /** Some event in `log` is a "backup failed" notification. */
  predicate FailureNoticeSent(log: seq<Event>) {
    log != [] && ((log[0].Notified? && log[0].notice.BackupFailedWith?) || FailureNoticeSent(log[1..]))
  }

  /** Every upload in `log` was handed `name`. */
  predicate UploadsCarry(log: seq<Event>, name: Option<Path>) {
    log == [] || ((log[0].UploadCalled? ==> log[0].file == name) && UploadsCarry(log[1..], name))
  }

  /** What a log reports is what its two halves report. */
  lemma {:induction false} ReportsConcat(a: seq<Event>, b: seq<Event>, name: Option<Path>)
    ensures SuccessNoticeSent(a + b) <==> SuccessNoticeSent(a) || SuccessNoticeSent(b)
    ensures FailureNoticeSent(a + b) <==> FailureNoticeSent(a) || FailureNoticeSent(b)
    ensures UploadsCarry(a + b, name) <==> UploadsCarry(a, name) && UploadsCarry(b, name)
    decreases |a|
  {
    if a == [] {
      assert a + b == b;
    } else {
      assert (a + b)[0] == a[0];
      assert (a + b)[1..] == a[1..] + b;
      ReportsConcat(a[1..], b, name);
    }
  }

  /** The `except` clauses of `backup` for a failed dump: a non-zero exit is
      reported as "Backup failed" and notified when notifications are on;
      anything else becomes a generic backup error and is not notified. */
  function DumpFailure<T>(req: BackupRequest, e: Exn, fs: Fs, log: seq<Event>): (t: Traced<T>)
    ensures t.result.Err? && t.fs == fs && log <= t.log
    ensures e.CalledProcessError? ==> t.result.error == Runtime(BackupFailed, e)
    ensures !e.CalledProcessError? ==> t.result.error == Runtime(BackupError, e) && t.log == log
    ensures t.log[|log|..] == if e.CalledProcessError? && NotifyEnabled(req)
                              then [Notified(req.webhookUrl.value, BackupFailedWith(e.code))] else []
  {
    if e.CalledProcessError? then
      var notice := if NotifyEnabled(req) then [Notified(req.webhookUrl.value, BackupFailedWith(e.code))] else [];
      Traced(Err(Runtime(BackupFailed, e)), fs, log + notice)
    else Traced(Err(Runtime(BackupError, e)), fs, log)
  }

  /** Optional encryption of the final artifact: the name to store and the
      filesystem afterwards. */
  function EncryptStage(req: BackupRequest, key: Key, fs: Fs, artifact: Path): (r: Result<(Option<Path>, Fs)>)
    ensures r.Ok? ==> r.value.0 == StoredName(req, artifact)
    ensures !req.encrypt ==> r == Ok((req.encryptedFile, fs))
    ensures req.encrypt ==> (r.Ok? <==> Encryption.EncryptFile(key, fs, artifact).Ok?)
    ensures req.encrypt && r.Ok? ==> r.value.1 == Encryption.EncryptFile(key, fs, artifact).value.1
    ensures r.Err? ==> req.encrypt
  {
    if req.encrypt then
      var (p, fs') :- Encryption.EncryptFile(key, fs, artifact);
      Ok((Some(p), fs'))
    else Ok((req.encryptedFile, fs))
  }

  /** The tail of `backup` after the dump (and optional compression): encrypt,
      store, notify on success. It yields the stored name; every failure is
      a generic backup error, never notified. */
  function EncryptStoreNotify(req: BackupRequest, w: World, fs: Fs, artifact: Path,
                              log: seq<Event>): (t: Traced<Option<Path>>)
    ensures log <= t.log
    ensures t.result.Ok? ==> t.result.value == StoredName(req, artifact)
    ensures t.result.Err? ==> t.result.error.Runtime? && t.result.error.context == BackupError
    ensures UploadsCarry(t.log[|log|..], StoredName(req, artifact))
    ensures !FailureNoticeSent(t.log[|log|..])
    ensures SuccessNoticeSent(t.log[|log|..]) <==> t.result.Ok? && NotifyEnabled(req)
    ensures t.result.Ok? ==> EncryptStage(req, w.key, fs, artifact) == Ok((StoredName(req, artifact), t.fs))
    ensures t.result.Ok? <==> Encryptable(req, fs, artifact) && Stores(req, w, artifact)
  {
    match EncryptStage(req, w.key, fs, artifact)
    case Err(e) => Traced(Err(Runtime(BackupError, e)), fs, log)
    case Ok((stored, fs1)) => StoreThenNotify(req, w, stored, fs1, log)
  }

  /** Storing `stored`, then the success notification. */
  function StoreThenNotify(req: BackupRequest, w: World, stored: Option<Path>, fs: Fs,
                           log: seq<Event>): (t: Traced<Option<Path>>)
    ensures log <= t.log && t.fs == fs
    ensures t.result.Ok? <==> HandleStorage(stored, req.storage, req.provider, req.bucket, w).result.Ok?
    ensures t.result.Ok? ==> t.result.value == stored
    ensures t.result.Err? ==> t.result.error.Runtime? && t.result.error.context == BackupError
    ensures UploadsCarry(t.log[|log|..], stored)
    ensures !FailureNoticeSent(t.log[|log|..])
    ensures SuccessNoticeSent(t.log[|log|..]) <==> t.result.Ok? && NotifyEnabled(req)
  {
    var s := HandleStorage(stored, req.storage, req.provider, req.bucket, w);
    if s.result.Err? then
      assert (log + s.log)[|log|..] == s.log;
      Traced(Err(Runtime(BackupError, s.result.error)), fs, log + s.log)
    else
      var notice := if NotifyEnabled(req) then [Notified(req.webhookUrl.value, BackupSucceeded(req.path))] else [];
      assert (log + s.log + notice)[|log|..] == s.log + notice;
      ReportsConcat(s.log, notice, stored);
      Traced(Ok(stored), fs, log + s.log + notice)
  }

  /** A dump that ran and left no notice or upload of its own changes
      nothing about what the rest of the log reports. */
  lemma RanPrefix(argv: seq<string>, rest: seq<Event>, name: Option<Path>)
    ensures FailureNoticeSent([Ran(argv)] + rest) <==> FailureNoticeSent(rest)
    ensures SuccessNoticeSent([Ran(argv)] + rest) <==> SuccessNoticeSent(rest)
    ensures UploadsCarry([Ran(argv)] + rest, name) <==> UploadsCarry(rest, name)
  {
    assert ([Ran(argv)] + rest)[1..] == rest;
  }

  /** A dump that ran and failed, with its event first. */
  function RanAndFailed<T>(req: BackupRequest, e: Exn, fs: Fs, argv: seq<string>): (t: Traced<T>)
    ensures t == DumpFailure(req, e, fs, [Ran(argv)])
    ensures t.log != [] && t.log[0] == Ran(argv)
    ensures NoUploads(t.log) && !SuccessNoticeSent(t.log)
    ensures FailureNoticeSent(t.log) <==> e.CalledProcessError? && NotifyEnabled(req)
  {
    var t := DumpFailure<T>(req, e, fs, [Ran(argv)]);
    assert t.log == [Ran(argv)] + t.log[1..];
    RanPrefix(argv, t.log[1..], None);
    assert e.CalledProcessError? && NotifyEnabled(req) ==>
             t.log[1..][0].Notified? && t.log[1..][0].notice.BackupFailedWith?;
    t
  }

  /** The shared tail after a successful dump, with the dump's event first;
      `keep` is any entry other than the encrypted name, which survives. */
  function StoredAfterRun(req: BackupRequest, w: World, fs: Fs, artifact: Path, argv: seq<string>,
                          keep: Path): (t: Traced<Option<Path>>)
    requires keep != artifact + ".enc"
    ensures t.result.Ok? <==> Encryptable(req, fs, artifact) && Stores(req, w, artifact)
    ensures t.result.Ok? ==> t.result.value == StoredName(req, artifact)
    ensures t.result.Err? ==> t.result.error.Runtime? && t.result.error.context == BackupError
    ensures t.result.Ok? && keep in fs ==> keep in t.fs && t.fs[keep] == fs[keep]
    ensures t.result.Ok? && !req.encrypt ==> t.fs == fs
    ensures t.result.Ok? && req.encrypt ==>
              && IsFile(fs, artifact) && OnlyChanged(fs, t.fs, artifact + ".enc")
              && t.fs[artifact + ".enc"] == File(Cipher(w.key, fs[artifact].data))
    ensures t.log != [] && t.log[0] == Ran(argv)
    ensures UploadsCarry(t.log, StoredName(req, artifact))
    ensures !FailureNoticeSent(t.log)
    ensures SuccessNoticeSent(t.log) <==> t.result.Ok? && NotifyEnabled(req)
  {
    var t := EncryptStoreNotify(req, w, fs, artifact, [Ran(argv)]);
    assert t.log == [Ran(argv)] + t.log[1..];
    RanPrefix(argv, t.log[1..], StoredName(req, artifact));
    t
  }

}
