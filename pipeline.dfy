/**
  One run of either program: configuration, backup, archive name, store
  client, upload, cleanup. The stages run in a fixed order, which differs
  between the two programs, and the run stops at the first that fails
  (`run` in containers/truenas_backup, `main` in
  containers/truenas_backup_to_s3).
*/
module Pipeline {
  import opened Wrappers
  import opened Settings
  import opened Rpc
  import opened Backup
  import opened Store
  import opened Naming

  datatype Stage = ConfigStage | BackupStage | NamingStage | ClientStage | UploadStage | CleanupStage

  /**
    containers/truenas_backup names the archive before creating the store
    client; containers/truenas_backup_to_s3 creates the client first.
  */
  function StageOrder(v: Variant): seq<Stage> {
    if v.TrueNasBackup? then [ConfigStage, BackupStage, NamingStage, ClientStage, UploadStage, CleanupStage]
    else [ConfigStage, BackupStage, ClientStage, NamingStage, UploadStage, CleanupStage]
  }

  datatype RunError =
    | BadConfig(configError: ConfigError)
    | BackupNotMade(backupError: BackupError)
    | NoStoreClient
    | UploadRejected
    | ListingAborted

  datatype RunOutcome = Completed(filename: string) | Failed(stage: Stage, error: RunError) | Panicked

  /** The process exit status: 0 on success, 1 after a reported error, 2 after a Go panic. */
  function ExitStatus(r: RunOutcome): (code: nat)
    ensures code == 0 <==> r.Completed?
    ensures code == 1 <==> r.Failed?
  {
    match r
    case Completed(_) => 0
    case Failed(_, _) => 1
    case Panicked => 2
  }

  /**
    Everything outside the programs that one run depends on: the process
    environment, the appliance's WebSocket and HTTP answers, whether the
    store client can be built, and the three clock readings (the archive's
    timestamp, the upload's modification time, and the cleanup's `now`, in
    seconds).
  */
  datatype World = World(
    env: Env,
    dial: Dial,
    http: HttpOutcome,
    clientOk: bool,
    clock: DateTime,
    uploadTime: int,
    cleanupTime: int)

  /** The store as a value: the state of a `Bucket` before the run. */
  datatype StoreState = StoreState(
    objects: map<string, int>,
    pages: seq<Page>,
    deleteFailures: set<string>,
    putFails: bool)

  /** The configuration step of each program. */
  function Configure(v: Variant, env: Env): (r: Result<Config, ConfigError>)
    ensures r.Failure? <==> MissingRequired(Resolve(env))
    ensures r.Success? ==> r.value == Resolve(env)
  {
    if v.TrueNasBackup? then LoadConfig(env) else CheckRequired(env)
  }

  /**
    The outcome of a run, how many stages of `StageOrder` it entered, its
    calls on the store and the store's objects after it.
  */
  datatype RunTrace = RunTrace(outcome: RunOutcome, entered: nat, storeRequests: seq<StoreRequest>, objects: map<string, int>)

  /**
    The stage bookkeeping every run keeps: it entered between one and all
    of its stages, a failure is reported by the last stage entered, a
    completed run entered them all, and a panic happens in the backup stage.
  */
  predicate Staged(v: Variant, t: RunTrace) {
    && 1 <= t.entered <= |StageOrder(v)|
    && (t.outcome.Failed? ==> t.outcome.stage == StageOrder(v)[t.entered - 1])
    && (t.outcome.Completed? ==> t.entered == |StageOrder(v)|)
    && (t.outcome.Panicked? ==> t.entered == 2)
  }

  /** What one run does, stage by stage. */
  function RunSpec(v: Variant, w: World, s: StoreState): (t: RunTrace)
    ensures Staged(v, t)
    ensures t.entered == 1 <==> MissingRequired(Resolve(w.env))
  {
    match Configure(v, w.env)
    case Failure(e) => RunTrace(Failed(ConfigStage, BadConfig(e)), 1, [], s.objects)
    case Success(cfg) => FromBackup(v, cfg, w, s)
  }

  /** The run from the backup stage on, once the configuration is read. */
  function FromBackup(v: Variant, cfg: Config, w: World, s: StoreState): (t: RunTrace)
    ensures Staged(v, t) && t.entered >= 2
    ensures t.storeRequests != [] || t.entered > 2 ==> BackupSpec(v, cfg, w.dial, w.http).result.Archive?
  {
    var backup := BackupSpec(v, cfg, w.dial, w.http).result;
    if backup.BackupPanicked? then RunTrace(Panicked, 2, [], s.objects)
    else if backup.BackupFailed? then RunTrace(Failed(BackupStage, BackupNotMade(backup.error)), 2, [], s.objects)
    else FromClient(v, cfg, w, s)
  }

  /** The run from the naming and client stages on, once the archive exists. */
  function FromClient(v: Variant, cfg: Config, w: World, s: StoreState): (t: RunTrace)
    ensures Staged(v, t) && t.entered >= 3
    ensures !w.clientOk ==> t.outcome == Failed(ClientStage, NoStoreClient) && t.storeRequests == [] && t.objects == s.objects
    ensures w.clientOk ==> t.entered >= 5
  {
    if !w.clientOk then
      RunTrace(Failed(ClientStage, NoStoreClient), if v.TrueNasBackup? then 4 else 3, [], s.objects)
    else FromUpload(v, cfg, Filename(v, cfg.name, w.clock), w, s)
  }

  /** The upload stage and what follows, once the archive is named `filename` and the client exists. */
  function FromUpload(v: Variant, cfg: Config, filename: string, w: World, s: StoreState): (t: RunTrace)
    ensures Staged(v, t) && t.entered >= 5
    ensures t.storeRequests != [] && t.storeRequests[0] == PutObject(ObjectKey(v, cfg.s3Prefix, filename))
    ensures s.putFails ==> && t.outcome == Failed(UploadStage, UploadRejected)
                           && t.storeRequests == [PutObject(ObjectKey(v, cfg.s3Prefix, filename))]
                           && t.objects == s.objects
    ensures !s.putFails ==> t.entered == 6
  {
    var key := ObjectKey(v, cfg.s3Prefix, filename);
    if s.putFails then RunTrace(Failed(UploadStage, UploadRejected), 5, [PutObject(key)], s.objects)
    else
      var t := FromCleanup(v, cfg, filename, w, s.(objects := s.objects[key := w.uploadTime]));
      t.(storeRequests := [PutObject(key)] + t.storeRequests)
  }

  /** The cleanup stage, after the archive `filename` is stored, with the store calls it makes. */
  function FromCleanup(v: Variant, cfg: Config, filename: string, w: World, s: StoreState): (t: RunTrace)
    ensures Staged(v, t) && t.entered == 6
    ensures t.outcome.Completed? ==> t.outcome.filename == filename
    ensures t.outcome.Completed? <==> cfg.retentionDays <= 0 || PageFailed !in s.pages
    ensures cfg.retentionDays <= 0 ==> t.storeRequests == [] && t.objects == s.objects
  {
    if cfg.retentionDays <= 0 then RunTrace(Completed(filename), 6, [], s.objects)
    else
      var trace := CleanupTrace(ListPrefix(v, cfg.s3Prefix), s.pages, Cutoff(w.cleanupTime, cfg.retentionDays));
      var objects := s.objects - RemovedKeys(trace, s.deleteFailures);
      var outcome := if PageFailed in s.pages then Failed(CleanupStage, ListingAborted) else Completed(filename);
      RunTrace(outcome, 6, trace, objects)
  }

  /** The stages a run entered, in order. */
  function Entered(v: Variant, t: RunTrace): seq<Stage>
    requires t.entered <= |StageOrder(v)|
  {
    StageOrder(v)[..t.entered]
  }

  /**
    The two programs run the same stages, except that the archive is named
    and the store client created in opposite orders.
  */
  lemma StageOrders()
    ensures StageOrder(TrueNasBackupToS3) == StageOrder(TrueNasBackup)[2 := ClientStage][3 := NamingStage]
    ensures StageOrder(TrueNasBackup)[2] == StageOrder(TrueNasBackupToS3)[3] == NamingStage
    ensures StageOrder(TrueNasBackup)[3] == StageOrder(TrueNasBackupToS3)[2] == ClientStage
  {
  }

  /**
    A configuration with a missing required value stops the run before any
    network or store call; containers/truenas_backup_to_s3 reports it as
    one error naming all the required variables.
  */
  lemma ConfigGate(v: Variant, w: World, s: StoreState)
    requires MissingRequired(Resolve(w.env))
    ensures Entered(v, RunSpec(v, w, s)) == [ConfigStage]
    ensures RunSpec(v, w, s).storeRequests == [] && RunSpec(v, w, s).objects == s.objects
    ensures ExitStatus(RunSpec(v, w, s).outcome) == 1
    ensures v.TrueNasBackupToS3? ==> RunSpec(v, w, s).outcome == Failed(ConfigStage, BadConfig(MissingRequiredVars))
  {
  }

  /**
    The archive is named, and the store touched, only after the backup
    produced an archive; containers/truenas_backup also names it before
    the store client exists.
  */
  lemma NamedOnlyAfterBackup(v: Variant, w: World, s: StoreState)
    ensures var t := RunSpec(v, w, s);
      (NamingStage in Entered(v, t) || t.storeRequests != []) ==>
        Configure(v, w.env).Success? && BackupSpec(v, Configure(v, w.env).value, w.dial, w.http).result.Archive?
    ensures var t := RunSpec(v, w, s);
      v.TrueNasBackup? && ClientStage in Entered(v, t) ==> NamingStage in Entered(v, t)
  {
    var t := RunSpec(v, w, s);
    StagePositions(v, t.entered);
  }

  /** Where the naming and client stages sit in each program's order. */
  lemma StagePositions(v: Variant, e: nat)
    requires e <= |StageOrder(v)|
    ensures NamingStage in StageOrder(v)[..e] <==> e > (if v.TrueNasBackup? then 2 else 3)
    ensures ClientStage in StageOrder(v)[..e] <==> e > (if v.TrueNasBackup? then 3 else 2)
  {
    var order := StageOrder(v);
    var naming := if v.TrueNasBackup? then 2 else 3;
    var client := if v.TrueNasBackup? then 3 else 2;
    assert order[naming] == NamingStage && order[client] == ClientStage;
    assert forall i :: 0 <= i < |order| && i != naming ==> order[i] != NamingStage;
    assert forall i :: 0 <= i < |order| && i != client ==> order[i] != ClientStage;
    if e > naming { assert order[..e][naming] == NamingStage; }
    if e > client { assert order[..e][client] == ClientStage; }
  }

  /**
    A completed run uploaded the archive under its key first, and named it
    `<name>-config-<timestamp>.tar`.
  */
  lemma CompletedRun(v: Variant, w: World, s: StoreState)
    requires RunSpec(v, w, s).outcome.Completed?
    ensures var cfg := Resolve(w.env);
      var filename := Filename(v, cfg.name, w.clock);
      && RunSpec(v, w, s).outcome.filename == filename
      && RunSpec(v, w, s).storeRequests[0] == PutObject(ObjectKey(v, cfg.s3Prefix, filename))
      && ExitStatus(RunSpec(v, w, s).outcome) == 0
  {
  }

  /**
    After a run that reached cleanup with a positive retention, the bucket
    holds the new archive and every earlier object except the listed ones
    older than the cutoff whose delete the store accepted.
  */
  lemma PrunedRun(v: Variant, w: World, s: StoreState)
    requires RunSpec(v, w, s).entered == 6 && Resolve(w.env).retentionDays > 0
    ensures var cfg := Resolve(w.env);
      var key := ObjectKey(v, cfg.s3Prefix, Filename(v, cfg.name, w.clock));
      var cutoff := Cutoff(w.cleanupTime, cfg.retentionDays);
      RunSpec(v, w, s).objects ==
        s.objects[key := w.uploadTime] - set k | k in Expired(ListedObjects(s.pages), cutoff) && k !in s.deleteFailures
  {
    var cfg := Resolve(w.env);
    CleanupRemovesExpired(ListPrefix(v, cfg.s3Prefix), s.pages, Cutoff(w.cleanupTime, cfg.retentionDays), s.deleteFailures);
  }

  /**
    The prefix read from the environment is never empty (an empty
    S3_PREFIX falls back to the default), so both programs store an
    archive under the same key: the bare-filename case of
    containers/truenas_backup is never taken.
  */
  lemma KeysAgree(env: Env, filename: string)
    ensures Resolve(env).s3Prefix != ""
    ensures ObjectKey(TrueNasBackup, Resolve(env).s3Prefix, filename) == ObjectKey(TrueNasBackupToS3, Resolve(env).s3Prefix, filename)
  {
  }

  /** Only containers/truenas_backup_to_s3 can panic, and only in the backup stage. */
  lemma PanicsOnlyInToS3(v: Variant, w: World, s: StoreState)
    requires RunSpec(v, w, s).outcome.Panicked?
    ensures v.TrueNasBackupToS3? && ExitStatus(RunSpec(v, w, s).outcome) == 2
    ensures RunSpec(v, w, s).storeRequests == []
  {
  }

  /** The state of a bucket as a value. */
  function StateOf(bucket: Bucket): StoreState
    reads bucket
  {
    StoreState(bucket.objects, bucket.pages, bucket.deleteFailures, bucket.putFails)
  }

  /**
    `run` / `main`: runs the stages in order and stops at the first that
    fails. `entered` counts the stages entered; `conn` is the appliance
    connection, closed whenever it was opened.
  */
  method Run(v: Variant, w: World, bucket: Bucket) returns (r: RunOutcome, ghost entered: nat, ghost conn: Session?)
    modifies bucket
    ensures var t := RunSpec(v, w, old(StateOf(bucket)));
      && r == t.outcome && entered == t.entered
      && bucket.requests == old(bucket.requests) + t.storeRequests
      && bucket.objects == t.objects
    ensures bucket.pages ==
      if RunSpec(v, w, old(StateOf(bucket))).entered == 6 && Resolve(w.env).retentionDays > 0
      then old(bucket.pages)[PagesRead(old(bucket.pages))..] else old(bucket.pages)
    ensures bucket.deleteFailures == old(bucket.deleteFailures) && bucket.putFails == old(bucket.putFails)
    ensures conn != null ==> fresh(conn) && conn.closed
    ensures MissingRequired(Resolve(w.env)) ==> conn == null
  {
    var config := Configure(v, w.env);
    if config.Failure? {
      return Failed(ConfigStage, BadConfig(config.error)), 1, null;
    }
    r, entered, conn := BackUpAndDeliver(v, config.value, w, bucket);
  }

  /** The backup stage, then `Deliver` once an archive exists. */
  method BackUpAndDeliver(v: Variant, cfg: Config, w: World, bucket: Bucket)
    returns (r: RunOutcome, ghost entered: nat, ghost conn: Session?)
    modifies bucket
    ensures var t := FromBackup(v, cfg, w, old(StateOf(bucket)));
      && r == t.outcome && entered == t.entered
      && bucket.requests == old(bucket.requests) + t.storeRequests
      && bucket.objects == t.objects
    ensures bucket.pages ==
      if FromBackup(v, cfg, w, old(StateOf(bucket))).entered == 6 && cfg.retentionDays > 0
      then old(bucket.pages)[PagesRead(old(bucket.pages))..] else old(bucket.pages)
    ensures bucket.deleteFailures == old(bucket.deleteFailures) && bucket.putFails == old(bucket.putFails)
    ensures conn != null ==> fresh(conn) && conn.closed
  {
    var backup, downloadUrl;
    backup, downloadUrl, conn := GenerateBackup(v, cfg, w.dial, w.http);
    if backup.BackupPanicked? {
      r, entered := Panicked, 2;
    } else if backup.BackupFailed? {
      r, entered := Failed(BackupStage, BackupNotMade(backup.error)), 2;
    } else {
      r, entered := Deliver(v, cfg, w, bucket);
    }
  }

  /**
    The naming and client stages, in each program's order, then
    `StoreArchive`.
  */
  method Deliver(v: Variant, cfg: Config, w: World, bucket: Bucket) returns (r: RunOutcome, ghost entered: nat)
    modifies bucket
    ensures var t := FromClient(v, cfg, w, old(StateOf(bucket)));
      && r == t.outcome && entered == t.entered
      && bucket.requests == old(bucket.requests) + t.storeRequests
      && bucket.objects == t.objects
    ensures bucket.pages ==
      if FromClient(v, cfg, w, old(StateOf(bucket))).entered == 6 && cfg.retentionDays > 0
      then old(bucket.pages)[PagesRead(old(bucket.pages))..] else old(bucket.pages)
    ensures bucket.deleteFailures == old(bucket.deleteFailures) && bucket.putFails == old(bucket.putFails)
  {
    var filename := "";
    if v.TrueNasBackup? {
      filename := Filename(v, cfg.name, w.clock);
    }
    if !w.clientOk {
      return Failed(ClientStage, NoStoreClient), if v.TrueNasBackup? then 4 else 3;
    }
    if v.TrueNasBackupToS3? {
      filename := Filename(v, cfg.name, w.clock);
    }
    r, entered := StoreArchive(v, cfg, filename, w, bucket);
  }

  /** The upload and cleanup stages for the archive `filename`. */
  method StoreArchive(v: Variant, cfg: Config, filename: string, w: World, bucket: Bucket) returns (r: RunOutcome, ghost entered: nat)
    modifies bucket
    ensures var t := FromUpload(v, cfg, filename, w, old(StateOf(bucket)));
      && r == t.outcome && entered == t.entered
      && bucket.requests == old(bucket.requests) + t.storeRequests
      && bucket.objects == t.objects
    ensures bucket.pages ==
      if FromUpload(v, cfg, filename, w, old(StateOf(bucket))).entered == 6 && cfg.retentionDays > 0
      then old(bucket.pages)[PagesRead(old(bucket.pages))..] else old(bucket.pages)
    ensures bucket.deleteFailures == old(bucket.deleteFailures) && bucket.putFails == old(bucket.putFails)
  {
    var upload := Upload(v, bucket, cfg.s3Prefix, filename, w.uploadTime);
    if upload.Failure? {
      return Failed(UploadStage, UploadRejected), 5;
    }
    ghost var t := FromCleanup(v, cfg, filename, w, StateOf(bucket));
    r := Prune(v, cfg, filename, w, bucket);
    entered := 6;
    AppendAssoc(old(bucket.requests), [PutObject(ObjectKey(v, cfg.s3Prefix, filename))], t.storeRequests);
  }

  /** The cleanup stage and the run's verdict on it. */
  method Prune(v: Variant, cfg: Config, filename: string, w: World, bucket: Bucket) returns (r: RunOutcome)
    modifies bucket
    ensures var t := FromCleanup(v, cfg, filename, w, old(StateOf(bucket)));
      && r == t.outcome
      && bucket.requests == old(bucket.requests) + t.storeRequests
      && bucket.objects == t.objects
    ensures bucket.pages ==
      if cfg.retentionDays > 0
      then old(bucket.pages)[PagesRead(old(bucket.pages))..] else old(bucket.pages)
    ensures bucket.deleteFailures == old(bucket.deleteFailures) && bucket.putFails == old(bucket.putFails)
  {
    var cleaned := Cleanup(v, bucket, cfg.s3Prefix, cfg.retentionDays, w.cleanupTime);
    if cleaned.ListingFailed? {
      r := Failed(CleanupStage, ListingAborted);
    } else {
      r := Completed(filename);
    }
  }
}
