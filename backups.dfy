/** The backup service (internal/service/backup.go): one settings row per application and
    environment (compared ignoring case) with its cron schedule, the engine loop of a backup run,
    and the storage dispatch of a download. The cron parser, the backup executors and the
    storage back-ends are parameters; the scheduler is a map from settings id to expression. */
module Backups {
  import opened Wrappers
  import opened Text
  import opened Uuids
  import opened Seqs
  import opened Types
  import opened Secrets

  const StorageTypeFile: string := "File"
  const StorageTypeS3: string := "S3"

  datatype BackupSettings = BackupSettings(id: Uuid, applicationId: Uuid, environment: string, cronExpression: string)

  datatype Backup = Backup(
    id: Uuid,
    applicationId: Uuid,
    environment: string,
    storageEngine: string,
    location: string,
    storageType: string)

  /** `cron.Parser.Parse` over five fields, left abstract: whether the expression parses. */
  type CronValidator = string -> bool

  /** What a backup executor is given; the storage credential is absent (Go's nil) when looking
      it up failed. */
  datatype ExecParams = ExecParams(
    environment: string,
    databaseVars: seq<Secret>,
    storageCredential: Option<StorageCredentials>,
    application: Application)

  /** `run` keeps the credential of a successful lookup and drops the error of a failed one. */
  function CredentialOrNil(credentials: Result<StorageCredentials>): (c: Option<StorageCredentials>)
    ensures c.Some? <==> credentials.Ok?
    ensures c.Some? ==> c.value == credentials.value
  {
    if credentials.Ok? then Some(credentials.value) else None
  }

  /** What a successful executor reports. */
  datatype ExecResult = ExecResult(location: string, storageType: string)

  /** `Executor.Execute` for one engine, left abstract: `None` when it fails (the run logs it and
      goes on). */
  type Executor = (string, ExecParams) -> Option<ExecResult>

  /** The engines `run` has an executor for. */
  predicate Supported(engine: string)
  {
    engine == StorageEnginePostgres || engine == StorageEngineMysql ||
    engine == StorageEngineMongo || engine == StorageEngineRedis
  }

  /** The settings rows of the application whose environment equals `environment` ignoring case:
      the `exists` filter of `CreateBackupSettings`. */
  function SameEnvironment(lower: RuneLower, applicationId: Uuid, environment: string): BackupSettings -> bool
  {
    (s: BackupSettings) => s.applicationId == applicationId && SameLower(lower, s.environment, environment)
  }

  /** The repository's `UpdateExpression`: every row with the id gets the new expression. */
  function WithExpression(settings: seq<BackupSettings>, id: Uuid, expression: string): (r: seq<BackupSettings>)
    ensures |r| == |settings|
    ensures forall i :: 0 <= i < |r| ==>
      r[i] == if settings[i].id == id then settings[i].(cronExpression := expression) else settings[i]
  {
    UpdateMatching(settings, (s: BackupSettings) => s.id == id, (s: BackupSettings) => s.(cronExpression := expression))
  }

  /** At most one settings row per application and environment, environments compared
      ignoring case. */
  predicate OnePerEnvironment(lower: RuneLower, settings: seq<BackupSettings>)
  {
    forall i, j :: 0 <= i < j < |settings| && settings[i].applicationId == settings[j].applicationId ==>
      !SameLower(lower, settings[i].environment, settings[j].environment)
  }

  /** The variables a run hands to the executors: the database variables of the settings'
      environment. */
  function IsDatabaseVarOf(environment: string): Secret -> bool
  {
    (s: Secret) => s.instanceType == InstanceTypeDatabase && s.environment == environment
  }

  function DatabaseVars(vars: seq<Secret>, environment: string): seq<Secret>
  {
    Filter(vars, IsDatabaseVarOf(environment))
  }

  /** A variable is passed exactly when it is a database variable of that environment, and the
      order is kept. */
  lemma DatabaseVarsSpec(vars: seq<Secret>, environment: string, v: Secret)
    ensures v in DatabaseVars(vars, environment) <==>
      v in vars && v.instanceType == InstanceTypeDatabase && v.environment == environment
    ensures IsSublist(DatabaseVars(vars, environment), vars)
  {
    FilterMembers(vars, IsDatabaseVarOf(environment), v);
    FilterIsSublist(vars, IsDatabaseVarOf(environment));
  }

  /** The backups a run records for `engines`: one per engine whose executor succeeds, until the
      first engine without an executor, which ends the run. */
  function Produced(app: Application, params: ExecParams, exec: Executor, engines: seq<string>, ids: seq<Uuid>): seq<Backup>
    requires |ids| == |engines|
  {
    if engines == [] || !Supported(engines[0]) then []
    else
      var rest := Produced(app, params, exec, engines[1..], ids[1..]);
      match exec(engines[0], params)
      case None => rest
      case Some(res) => [Backup(ids[0], app.id, params.environment, engines[0], res.location, res.storageType)] + rest
  }

  /** Every recorded backup is of a supported engine that the executor backed up, for the run's
      application and environment. */
  lemma {:induction false} ProducedSpec(app: Application, params: ExecParams, exec: Executor, engines: seq<string>, ids: seq<Uuid>)
    requires |ids| == |engines|
    ensures forall b :: b in Produced(app, params, exec, engines, ids) ==>
      b.storageEngine in engines && Supported(b.storageEngine) && exec(b.storageEngine, params).Some? &&
      b.applicationId == app.id && b.environment == params.environment
  {
    if engines != [] && Supported(engines[0]) {
      ProducedSpec(app, params, exec, engines[1..], ids[1..]);
    }
  }

  /** The first engine without an executor ends the run: nothing after it is backed up. */
  lemma {:induction false} ProducedStopsAt(app: Application, params: ExecParams, exec: Executor, engines: seq<string>, ids: seq<Uuid>, k: nat)
    requires |ids| == |engines| && k < |engines| && !Supported(engines[k])
    ensures Produced(app, params, exec, engines, ids) == Produced(app, params, exec, engines[..k], ids[..k])
  {
    if k > 0 && Supported(engines[0]) {
      ProducedStopsAt(app, params, exec, engines[1..], ids[1..], k - 1);
      assert engines[1..][..k - 1] == engines[..k][1..];
      assert ids[1..][..k - 1] == ids[..k][1..];
    }
  }

  /** A backed-up file is fetched from local storage or from object storage with credentials. */
  datatype Storage = FileStorage | ObjectStorage(credentials: StorageCredentials)

  /** The storage `Download` selects for a backup's storage type, given the outcome of the
      credentials lookup. */
  function StorageFor(storageType: string, credentials: Result<StorageCredentials>): Result<Storage>
  {
    if storageType == StorageTypeFile then Ok(FileStorage)
    else if storageType == StorageTypeS3 then
      match credentials
      case Err(e) => Err("failed to find object storage credential: " + e)
      case Ok(c) => Ok(ObjectStorage(c))
    else Err("unknown storage type")
  }

  /** "File" always uses local storage, "S3" needs credentials, and any other type is refused. */
  lemma StorageForSpec(storageType: string, credentials: Result<StorageCredentials>)
    ensures StorageFor(storageType, credentials).Ok? <==>
      storageType == StorageTypeFile || (storageType == StorageTypeS3 && credentials.Ok?)
    ensures storageType == StorageTypeFile ==> StorageFor(storageType, credentials) == Ok(FileStorage)
    ensures storageType == StorageTypeS3 && credentials.Ok? ==>
      StorageFor(storageType, credentials) == Ok(ObjectStorage(credentials.value))
  {
  }

  /** The repository's `FindByID`. */
  function BackupById(backups: seq<Backup>, id: Uuid): (r: Option<Backup>)
    ensures r.Some? ==> r.value in backups && r.value.id == id
    ensures r.None? <==> forall i :: 0 <= i < |backups| ==> backups[i].id != id
  {
    FirstMatch(backups, (b: Backup) => b.id == id)
  }

  class BackupService {
    var settings: seq<BackupSettings>
    var backups: seq<Backup>
    /** The scheduler's jobs: settings id to cron expression. */
    var schedule: map<Uuid, string>
    const validCron: CronValidator

    constructor (validCron: CronValidator)
      ensures this.validCron == validCron && settings == [] && backups == [] && schedule == map[]
    {
      this.validCron := validCron;
      settings := [];
      backups := [];
      schedule := map[];
    }

    /** `CreateBackupSettings`: reject a bad expression first; keep or (with `updateRunner`)
        re-schedule an existing row for the environment; otherwise add and schedule one row. */
    method CreateBackupSettings(lower: RuneLower, applicationId: Uuid, environment: string, cronExpression: string,
                                updateRunner: bool, newId: Uuid) returns (r: Outcome)
      modifies this
      ensures backups == old(backups)
      ensures !validCron(cronExpression) ==>
        r.Fail? && settings == old(settings) && schedule == old(schedule)
      ensures var existing := Filter(old(settings), SameEnvironment(lower, applicationId, environment));
        validCron(cronExpression) && |existing| > 0 && !updateRunner ==>
          r == Pass && settings == old(settings) && schedule == old(schedule)
      ensures var existing := Filter(old(settings), SameEnvironment(lower, applicationId, environment));
        validCron(cronExpression) && |existing| > 0 && updateRunner ==>
          r == Pass && settings == WithExpression(old(settings), existing[0].id, cronExpression) &&
          schedule == old(schedule)[existing[0].id := cronExpression]
      ensures var existing := Filter(old(settings), SameEnvironment(lower, applicationId, environment));
        validCron(cronExpression) && |existing| == 0 ==>
          r == Pass && settings == old(settings) + [BackupSettings(newId, applicationId, environment, cronExpression)] &&
          schedule == old(schedule)[newId := cronExpression]
    {
      if !validCron(cronExpression) {
        return Fail("invalid cron expression: " + cronExpression);
      }
      var existing := Filter(settings, SameEnvironment(lower, applicationId, environment));
      if |existing| > 0 {
        if updateRunner {
          UpdateBackupSettings(existing[0], cronExpression);
        }
        return Pass;
      }
      var s := BackupSettings(newId, applicationId, environment, cronExpression);
      settings := settings + [s];
      schedule := schedule[newId := cronExpression];
      return Pass;
    }

    /** `updateBackupSettings`: store the new expression and replace the job. */
    method UpdateBackupSettings(s: BackupSettings, expression: string)
      modifies this
      ensures backups == old(backups)
      ensures settings == WithExpression(old(settings), s.id, expression)
      ensures schedule == old(schedule)[s.id := expression]
    {
      settings := WithExpression(settings, s.id, expression);
      schedule := schedule[s.id := expression];
    }

    /** The unexported `run` for one settings row (the exported `Run` only schedules it for every
        row): after its lookups, pass the environment's database variables and the storage
        credential to the executor of each engine in turn, record each success, and stop at the
        first engine without an executor. `credentials` is what `findStorageCredential`
        answered; its error does not stop the run. */
    method RunSettings(s: BackupSettings, app: Result<Application>, vars: Result<seq<Secret>>,
                       credentials: Result<StorageCredentials>, exec: Executor, ids: seq<Uuid>)
      returns (r: Outcome)
      requires app.Ok? ==> |ids| == |app.value.storageEngines|
      modifies this
      ensures settings == old(settings) && schedule == old(schedule)
      ensures app.Err? ==> r.Fail? && backups == old(backups)
      ensures app.Ok? && vars.Err? ==> r.Fail? && backups == old(backups)
      ensures app.Ok? && vars.Ok? ==> r == Pass
      ensures app.Ok? && vars.Ok? ==>
        var params := ExecParams(s.environment, DatabaseVars(vars.value, s.environment),
                                 CredentialOrNil(credentials), app.value);
        backups == old(backups) + Produced(app.value, params, exec, app.value.storageEngines, ids)
    {
      if app.Err? {
        return Fail(app.error);
      }
      if vars.Err? {
        return Fail(vars.error);
      }
      var application := app.value;
      var params := ExecParams(s.environment, DatabaseVars(vars.value, s.environment),
                               CredentialOrNil(credentials), application);
      var engines := application.storageEngines;
      ghost var goal := old(backups) + Produced(application, params, exec, engines, ids);
      for i := 0 to |engines|
        invariant settings == old(settings) && schedule == old(schedule)
        invariant goal == backups + Produced(application, params, exec, engines[i..], ids[i..])
      {
        assert engines[i..][1..] == engines[i + 1..] && ids[i..][1..] == ids[i + 1..];
        var se := engines[i];
        if !Supported(se) {
          return Pass;
        }
        var result := exec(se, params);
        if result.Some? {
          var b := Backup(ids[i], application.id, s.environment, se, result.value.location, result.value.storageType);
          backups := backups + [b];
        }
      }
      return Pass;
    }

    /** `Download`: find the backup and pick its storage; fetching the file is left out. */
    method Download(backupId: Uuid, credentials: Result<StorageCredentials>) returns (r: Result<(Storage, string)>)
      ensures BackupById(backups, backupId).None? ==> r.Err?
      ensures BackupById(backups, backupId).Some? ==>
        var b := BackupById(backups, backupId).value;
        match StorageFor(b.storageType, credentials)
        case Err(e) => r == Err(e)
        case Ok(st) => r == Ok((st, b.location))
    {
      var found := BackupById(backups, backupId);
      if found.None? {
        return Err("record not found");
      }
      var st := StorageFor(found.value.storageType, credentials);
      if st.Err? {
        return Err(st.error);
      }
      return Ok((st.value, found.value.location));
    }
  }

  /** The row `CreateBackupSettings` finds belongs to the application and the environment, ignoring
      case; when there is none, no row of the application has that environment. */
  lemma ExistingSpec(lower: RuneLower, settings: seq<BackupSettings>, applicationId: Uuid, environment: string)
    ensures var existing := Filter(settings, SameEnvironment(lower, applicationId, environment));
      (|existing| > 0 ==> existing[0] in settings && existing[0].applicationId == applicationId &&
                          SameLower(lower, existing[0].environment, environment)) &&
      (|existing| == 0 ==> forall i :: 0 <= i < |settings| && settings[i].applicationId == applicationId ==>
                             !SameLower(lower, settings[i].environment, environment))
  {
    var existing := Filter(settings, SameEnvironment(lower, applicationId, environment));
    if |existing| > 0 {
      FilterMembers(settings, SameEnvironment(lower, applicationId, environment), existing[0]);
    } else {
      forall i | 0 <= i < |settings| && settings[i].applicationId == applicationId
        ensures !SameLower(lower, settings[i].environment, environment)
      {
        FilterMembers(settings, SameEnvironment(lower, applicationId, environment), settings[i]);
      }
    }
  }

  /** Changing an expression keeps one row per environment. */
  lemma WithExpressionKeepsOnePerEnvironment(lower: RuneLower, settings: seq<BackupSettings>, id: Uuid, expression: string)
    requires OnePerEnvironment(lower, settings)
    ensures OnePerEnvironment(lower, WithExpression(settings, id, expression))
  {
    var r := WithExpression(settings, id, expression);
    assert forall i :: 0 <= i < |r| ==> r[i].applicationId == settings[i].applicationId && r[i].environment == settings[i].environment;
  }

  /** Adding a row only when the application has none for the environment keeps one row per
      environment. */
  lemma AddKeepsOnePerEnvironment(lower: RuneLower, settings: seq<BackupSettings>, applicationId: Uuid, environment: string,
                                  newId: Uuid, cronExpression: string)
    requires OnePerEnvironment(lower, settings)
    requires |Filter(settings, SameEnvironment(lower, applicationId, environment))| == 0
    ensures OnePerEnvironment(lower, settings + [BackupSettings(newId, applicationId, environment, cronExpression)])
  {
    ExistingSpec(lower, settings, applicationId, environment);
    var r := settings + [BackupSettings(newId, applicationId, environment, cronExpression)];
    forall i, j | 0 <= i < j < |r| && r[i].applicationId == r[j].applicationId
      ensures !SameLower(lower, r[i].environment, r[j].environment)
    {
      if j == |settings| {
        assert r[i] == settings[i];
      }
    }
  }
}
