/**
 The migration driver (full_migrate.py): reads its settings from the
 environment, then runs scan, backup, stage, migrate, commit and notify in
 this order, stopping with exit status 1 at the first of the first five that
 fails, and swallowing a failure of the final MQTT notification.

 The file system is a value, a map from path to file contents. The scanner
 subprocess, the migrate subprocess, the file copies and the MQTT broker are
 represented by their outcomes, which are inputs.
 */
module FullMigrate {
  import opened Wrappers

  // ---------------------------------------------------------------------------
  // Settings from the environment

  /** ASCII lower-casing of one character. */
  function LowerChar(c: char): char
  {
    if 'A' <= c <= 'Z' then (c as int - 'A' as int + 'a' as int) as char else c
  }

  /** `str.lower()` restricted to ASCII letters: no upper-case letter is left,
      each one becomes the lower-case letter at the same place in the
      alphabet, and every other character is kept. */
  function Lower(s: string): (r: string)
    ensures |r| == |s|
    ensures forall i :: 0 <= i < |r| ==> !('A' <= r[i] <= 'Z')
    ensures forall i :: 0 <= i < |s| && 'A' <= s[i] <= 'Z' ==>
              'a' <= r[i] <= 'z' && r[i] as int - 'a' as int == s[i] as int - 'A' as int
    ensures forall i :: 0 <= i < |s| && !('A' <= s[i] <= 'Z') ==> r[i] == s[i]
  {
    seq(|s|, i requires 0 <= i < |s| => LowerChar(s[i]))
  }

  /** `sub` occurs in `s` starting at position `i`. */
  predicate OccursAt(s: string, sub: string, i: nat)
  {
    i + |sub| <= |s| && s[i..i + |sub|] == sub
  }

  /** `sub in s` for strings. */
  predicate Contains(s: string, sub: string)
  {
    exists i: nat | i <= |s| :: OccursAt(s, sub, i)
  }

  /** A string lacking one of the characters of `sub` does not contain `sub`. */
  lemma AbsentCharNotContained(s: string, sub: string, c: char)
    requires c in sub && c !in s
    ensures !Contains(s, sub)
  {
    forall i: nat | i + |sub| <= |s|
      ensures !OccursAt(s, sub, i)
    {
      assert forall x :: x in s[i..i + |sub|] ==> x in s;
    }
  }

  /** A variable whose lower-cased name contains `path`, `file` or `dir` holds a path. */
  predicate PathLike(name: string)
  {
    Contains(Lower(name), "path") || Contains(Lower(name), "file") || Contains(Lower(name), "dir")
  }

  /** `value.replace('\\', '/')`. */
  function ReplaceBackslashes(s: string): (r: string)
    ensures |r| == |s|
    ensures forall i :: 0 <= i < |s| ==> r[i] == (if s[i] == '\\' then '/' else s[i])
    ensures '\\' !in r
  {
    if s == [] then [] else [if s[0] == '\\' then '/' else s[0]] + ReplaceBackslashes(s[1..])
  }

  /** The error `get_env_var` raises (a ValueError naming the variable). */
  datatype EnvError = Unset(name: string)

  /** `get_env_var`: the value of a set variable, normalised as a path when
      its name is path-like. `normpath` stands for `os.path.normpath`. */
  function GetEnvVar(env: map<string, string>, name: string, normpath: string -> string): (r: Result<string, EnvError>)
    ensures r.Failure? <==> name !in env
    ensures r.Failure? ==> r.error == Unset(name)
    ensures r.Success? && !PathLike(name) ==> r.value == env[name]
    ensures r.Success? && PathLike(name) ==> r.value == normpath(ReplaceBackslashes(env[name]))
  {
    if name !in env then Failure(Unset(name))
    else if PathLike(name) then Success(normpath(ReplaceBackslashes(env[name])))
    else Success(env[name])
  }

  /** Only an unset variable is an error: an empty value comes back as it is
      (normalised when the name is path-like). */
  lemma EmptyValueAccepted(env: map<string, string>, name: string, normpath: string -> string)
    requires name in env && env[name] == ""
    ensures GetEnvVar(env, name, normpath) == Success(if PathLike(name) then normpath("") else "")
  {
    assert ReplaceBackslashes("") == "";
  }

  /** The settings, in the order the script reads them. */
  const RequiredNames: seq<string> := [
    "LOG_FILE", "LOG_LEVEL", "LOG_FORMAT",
    "SNAPSHOT_FILE", "CORE_CONFIG_FILE", "BACKUP_FILE", "LOCAL_CORE_CONFIG_FILE",
    "MQTT_BROKER", "MQTT_PORT", "MQTT_USERNAME", "MQTT_PASSWORD", "MQTT_TOPIC"]

  /** A name is path-like when "file" occurs in its lower-cased form at `i`. */
  lemma FileNameIsPathLike(name: string, i: nat)
    requires OccursAt(Lower(name), "file", i)
    ensures PathLike(name)
  {
  }

  /** A name is not path-like when its lower-cased form lacks one character
      of each of "path", "file" and "dir". */
  lemma NameIsNotPathLike(name: string, p: char, f: char, d: char)
    requires p in "path" && f in "file" && d in "dir"
    requires p !in Lower(name) && f !in Lower(name) && d !in Lower(name)
    ensures !PathLike(name)
  {
    AbsentCharNotContained(Lower(name), "path", p);
    AbsentCharNotContained(Lower(name), "file", f);
    AbsentCharNotContained(Lower(name), "dir", d);
  }

  // Which of the twelve settings are normalised: the five file settings are
  // path-like, the other seven are not (`MQTT_PASSWORD` contains "pass" but
  // not "path").

  lemma LogFileIsPathLike()
    ensures PathLike("LOG_FILE")
  {
    assert Lower("LOG_FILE") == "log_file";
    FileNameIsPathLike("LOG_FILE", 4);
  }

  lemma LogLevelIsVerbatim()
    ensures !PathLike("LOG_LEVEL")
  {
    assert Lower("LOG_LEVEL") == "log_level";
    NameIsNotPathLike("LOG_LEVEL", 'p', 'f', 'd');
  }

  lemma LogFormatIsVerbatim()
    ensures !PathLike("LOG_FORMAT")
  {
    assert Lower("LOG_FORMAT") == "log_format";
    NameIsNotPathLike("LOG_FORMAT", 'p', 'i', 'd');
  }

  lemma SnapshotFileIsPathLike()
    ensures PathLike("SNAPSHOT_FILE")
  {
    assert Lower("SNAPSHOT_FILE") == "snapshot_file";
    FileNameIsPathLike("SNAPSHOT_FILE", 9);
  }

  lemma CoreConfigFileIsPathLike()
    ensures PathLike("CORE_CONFIG_FILE")
  {
    assert Lower("CORE_CONFIG_FILE") == "core_config_file";
    FileNameIsPathLike("CORE_CONFIG_FILE", 12);
  }

  lemma BackupFileIsPathLike()
    ensures PathLike("BACKUP_FILE")
  {
    assert Lower("BACKUP_FILE") == "backup_file";
    FileNameIsPathLike("BACKUP_FILE", 7);
  }

  lemma LocalCoreConfigFileIsPathLike()
    ensures PathLike("LOCAL_CORE_CONFIG_FILE")
  {
    assert Lower("LOCAL_CORE_CONFIG_FILE") == "local_core_config_file";
    FileNameIsPathLike("LOCAL_CORE_CONFIG_FILE", 18);
  }

  lemma MqttBrokerIsVerbatim()
    ensures !PathLike("MQTT_BROKER")
  {
    assert Lower("MQTT_BROKER") == "mqtt_broker";
    NameIsNotPathLike("MQTT_BROKER", 'p', 'f', 'd');
  }

  lemma MqttPortIsVerbatim()
    ensures !PathLike("MQTT_PORT")
  {
    assert Lower("MQTT_PORT") == "mqtt_port";
    NameIsNotPathLike("MQTT_PORT", 'h', 'f', 'd');
  }

  lemma MqttUsernameIsVerbatim()
    ensures !PathLike("MQTT_USERNAME")
  {
    assert Lower("MQTT_USERNAME") == "mqtt_username";
    NameIsNotPathLike("MQTT_USERNAME", 'p', 'f', 'i');
  }

  lemma MqttPasswordIsVerbatim()
    ensures !PathLike("MQTT_PASSWORD")
  {
    assert Lower("MQTT_PASSWORD") == "mqtt_password";
    NameIsNotPathLike("MQTT_PASSWORD", 'h', 'f', 'i');
  }

  lemma MqttTopicIsVerbatim()
    ensures !PathLike("MQTT_TOPIC")
  {
    assert Lower("MQTT_TOPIC") == "mqtt_topic";
    NameIsNotPathLike("MQTT_TOPIC", 'h', 'f', 'd');
  }

  /** Reads the variables in order; the first unset one is the error. */
  function GetAll(env: map<string, string>, names: seq<string>, normpath: string -> string): (r: Result<seq<string>, EnvError>)
    ensures r.Success? <==> forall n :: n in names ==> n in env
    ensures r.Success? ==> |r.value| == |names|
    ensures r.Success? ==> forall k :: 0 <= k < |names| ==> GetEnvVar(env, names[k], normpath) == Success(r.value[k])
    ensures r.Failure? ==> exists k :: 0 <= k < |names| && r.error == Unset(names[k]) && names[k] !in env
                                    && forall j :: 0 <= j < k ==> names[j] in env
  {
    if names == [] then Success([])
    else match GetEnvVar(env, names[0], normpath)
      case Failure(e) => Failure(e)
      case Success(v) =>
        match GetAll(env, names[1..], normpath)
        case Failure(e) =>
          assert forall j :: 0 <= j < |names| - 1 ==> names[1..][j] == names[j + 1];
          Failure(e)
        case Success(vs) =>
          assert forall n :: n in names ==> n == names[0] || n in names[1..];
          Success([v] + vs)
  }

  /** The settings the script holds after start-up. The port stays text. */
  datatype Config = Config(
    logFile: string, logLevel: string, logFormat: string,
    snapshot: string, core: string, backup: string, local: string,
    broker: string, port: string, username: string, password: string, topic: string)

  /** Start-up: every setting is required and the first unset one, in the
      order the script reads them, stops the script. */
  function LoadConfig(env: map<string, string>, normpath: string -> string): (r: Result<Config, EnvError>)
    ensures r.Success? <==> forall n :: n in RequiredNames ==> n in env
    ensures r.Failure? ==> exists k :: 0 <= k < |RequiredNames| && r.error == Unset(RequiredNames[k])
                                    && RequiredNames[k] !in env
                                    && forall j :: 0 <= j < k ==> RequiredNames[j] in env
  {
    match GetAll(env, RequiredNames, normpath)
    case Failure(e) => Failure(e)
    case Success(vs) =>
      Success(Config(vs[0], vs[1], vs[2], vs[3], vs[4], vs[5], vs[6], vs[7], vs[8], vs[9], vs[10], vs[11]))
  }

  /** The five file settings are the environment values with backslashes
      turned into slashes, then normalised. */
  lemma LoadedPathsNormalised(env: map<string, string>, normpath: string -> string)
    requires LoadConfig(env, normpath).Success?
    ensures var cfg := LoadConfig(env, normpath).value;
            && cfg.logFile == normpath(ReplaceBackslashes(env["LOG_FILE"]))
            && cfg.snapshot == normpath(ReplaceBackslashes(env["SNAPSHOT_FILE"]))
            && cfg.core == normpath(ReplaceBackslashes(env["CORE_CONFIG_FILE"]))
            && cfg.backup == normpath(ReplaceBackslashes(env["BACKUP_FILE"]))
            && cfg.local == normpath(ReplaceBackslashes(env["LOCAL_CORE_CONFIG_FILE"]))
  {
    var vs := GetAll(env, RequiredNames, normpath).value;
    LogFileIsPathLike();
    SnapshotFileIsPathLike();
    CoreConfigFileIsPathLike();
    BackupFileIsPathLike();
    LocalCoreConfigFileIsPathLike();
    assert GetEnvVar(env, RequiredNames[0], normpath) == Success(vs[0]);
    assert GetEnvVar(env, RequiredNames[3], normpath) == Success(vs[3]);
    assert GetEnvVar(env, RequiredNames[4], normpath) == Success(vs[4]);
    assert GetEnvVar(env, RequiredNames[5], normpath) == Success(vs[5]);
    assert GetEnvVar(env, RequiredNames[6], normpath) == Success(vs[6]);
  }

  /** The logging and MQTT settings are taken verbatim, empty strings included. */
  lemma LoadedOthersVerbatim(env: map<string, string>, normpath: string -> string)
    requires LoadConfig(env, normpath).Success?
    ensures var cfg := LoadConfig(env, normpath).value;
            && cfg.logLevel == env["LOG_LEVEL"] && cfg.logFormat == env["LOG_FORMAT"]
            && cfg.broker == env["MQTT_BROKER"] && cfg.port == env["MQTT_PORT"]
            && cfg.username == env["MQTT_USERNAME"] && cfg.password == env["MQTT_PASSWORD"]
            && cfg.topic == env["MQTT_TOPIC"]
  {
    var vs := GetAll(env, RequiredNames, normpath).value;
    LogLevelIsVerbatim();
    LogFormatIsVerbatim();
    MqttBrokerIsVerbatim();
    MqttPortIsVerbatim();
    MqttUsernameIsVerbatim();
    MqttPasswordIsVerbatim();
    MqttTopicIsVerbatim();
    assert GetEnvVar(env, RequiredNames[1], normpath) == Success(vs[1]);
    assert GetEnvVar(env, RequiredNames[2], normpath) == Success(vs[2]);
    assert GetEnvVar(env, RequiredNames[7], normpath) == Success(vs[7]);
    assert GetEnvVar(env, RequiredNames[8], normpath) == Success(vs[8]);
    assert GetEnvVar(env, RequiredNames[9], normpath) == Success(vs[9]);
    assert GetEnvVar(env, RequiredNames[10], normpath) == Success(vs[10]);
    assert GetEnvVar(env, RequiredNames[11], normpath) == Success(vs[11]);
  }

  // ---------------------------------------------------------------------------
  // The pipeline

  datatype Step = Scan | Backup | Stage | Migrate | Commit | Notify

  /** The fixed order of the steps. */
  const Order: seq<Step> := [Scan, Backup, Stage, Migrate, Commit, Notify]

  /** How a copy `open(src) ... open(dst, 'w') ... dst.write(src.read())` ends
      once the source could be opened: it succeeds, or it fails leaving the
      destination with the given contents (None: the destination was not touched). */
  datatype CopyOutcome = Copied | CopyFailed(leftover: Option<string>)

  /** How the `python migrate.py` subprocess ends: non-zero exit status, or
      zero exit status having rewritten the working copy (Some) or not (None). */
  datatype MigrateOutcome = MigrateFailed | MigrateSucceeded(rewrote: Option<string>)

  /** The behaviour of everything outside the script during one run. */
  datatype Outcomes = Outcomes(
    scanOk: bool, backup: CopyOutcome, stage: CopyOutcome,
    migrate: MigrateOutcome, commit: CopyOutcome, brokerReachable: bool)

  datatype Message = Message(topic: string, payload: string)

  /** What a run did: the steps it started, the files afterwards, the
      credentials set on the MQTT client, the message published (if the
      broker could be reached) and the exit status. */
  datatype Run = Run(
    ran: seq<Step>, files: map<string, string>,
    credentials: Option<(string, string)>, published: Option<Message>, exitCode: int)

  /** `b` differs from `a` at most at the paths in `written`. */
  ghost predicate AgreeOutside(a: map<string, string>, b: map<string, string>, written: set<string>)
  {
    forall p :: p !in written ==> (p in a <==> p in b) && (p in a ==> a[p] == b[p])
  }

  /** One copy step. Opening a missing source fails before the destination
      is opened. Opening the destination for writing truncates it, so when
      it is the source itself the source is read back empty. */
  function CopyFile(files: map<string, string>, src: string, dst: string, io: CopyOutcome): (r: (bool, map<string, string>))
    ensures r.0 <==> src in files && io.Copied?
    ensures AgreeOutside(files, r.1, {dst})
    ensures src !in files ==> r.1 == files
    ensures r.0 ==> dst in r.1 && r.1[dst] == (if src == dst then "" else files[src])
  {
    if src !in files then (false, files)
    else match io
      case Copied => (true, files[dst := if src == dst then "" else files[src]])
      case CopyFailed(leftover) =>
        (false, if leftover.Some? then files[dst := leftover.value] else files)
  }

  /** The step at which a run stops, None when it gets to the end. Only the
      outcomes decide it, and the notification never fails the run. */
  function FirstFailure(cfg: Config, fs0: map<string, string>, o: Outcomes): (s: Option<Step>)
    ensures s != Some(Notify)
    // The step returned failed and every step before it succeeded.
    ensures s == Some(Scan) <==> !o.scanOk
    ensures s == Some(Backup) <==> o.scanOk && (cfg.core !in fs0 || o.backup.CopyFailed?)
    ensures s == Some(Stage) <==> o.scanOk && cfg.core in fs0 && o.backup.Copied? && o.stage.CopyFailed?
    ensures s == Some(Migrate) <==> o.scanOk && cfg.core in fs0 && o.backup.Copied? && o.stage.Copied?
                                    && o.migrate.MigrateFailed?
    ensures s == Some(Commit) <==> o.scanOk && cfg.core in fs0 && o.backup.Copied? && o.stage.Copied?
                                   && o.migrate.MigrateSucceeded? && o.commit.CopyFailed?
    ensures s == None <==> o.scanOk && cfg.core in fs0 && o.backup.Copied? && o.stage.Copied?
                           && o.migrate.MigrateSucceeded? && o.commit.Copied?
  {
    if !o.scanOk then Some(Scan)
    else if cfg.core !in fs0 || o.backup.CopyFailed? then Some(Backup)
    else if o.stage.CopyFailed? then Some(Stage)
    else if o.migrate.MigrateFailed? then Some(Migrate)
    else if o.commit.CopyFailed? then Some(Commit)
    else None
  }

  /** The live file, the backup and the working copy are three different files. */
  predicate Distinct(cfg: Config)
  {
    cfg.core != cfg.backup && cfg.core != cfg.local && cfg.backup != cfg.local
  }

  /** The working copy once migrate.py has run: the staged copy of the live
      file, unless migrate.py rewrote it. */
  function Migrated(fs0: map<string, string>, cfg: Config, o: Outcomes): string
    requires cfg.core in fs0
  {
    if o.migrate.MigrateSucceeded? && o.migrate.rewrote.Some? then o.migrate.rewrote.value else fs0[cfg.core]
  }

  /** The script from step 1 on, with file system `fs0` and the given outcomes. */
  method RunPipeline(cfg: Config, fs0: map<string, string>, o: Outcomes) returns (r: Run)
    // steps start in the fixed order, each after the previous one returned
    ensures 1 <= |r.ran| <= |Order| && r.ran == Order[..|r.ran|]
    // fail fast: the run stops at the first failing step with status 1
    ensures FirstFailure(cfg, fs0, o).Some? ==> r.ran[|r.ran| - 1] == FirstFailure(cfg, fs0, o).value && r.exitCode == 1
    ensures FirstFailure(cfg, fs0, o).None? ==> r.ran == Order && r.exitCode == 0
    // notification: credentials only when both are non-empty, at most one publish
    ensures r.credentials == (if r.ran == Order && cfg.username != "" && cfg.password != ""
                              then Some((cfg.username, cfg.password)) else None)
    ensures r.published == (if r.ran == Order && o.brokerReachable then Some(Message(cfg.topic, "reboot")) else None)
    // files other than the live file, the backup and the working copy are untouched
    ensures AgreeOutside(fs0, r.files, {cfg.core, cfg.backup, cfg.local})
    // the live file is written only by the commit step
    ensures Commit !in r.ran ==> AgreeOutside(fs0, r.files, {cfg.backup, cfg.local})
    // backup and staging copy the live file as read
    ensures Distinct(cfg) && Migrate in r.ran ==>
              && cfg.core in fs0 && cfg.backup in r.files && r.files[cfg.backup] == fs0[cfg.core]
              && cfg.local in r.files && r.files[cfg.local] == Migrated(fs0, cfg, o)
    // a successful run leaves the migrated working copy in the live file
    ensures Distinct(cfg) && r.exitCode == 0 ==>
              cfg.core in fs0 && cfg.core in r.files && r.files[cfg.core] == Migrated(fs0, cfg, o)
  {
    var files := fs0;
    var ok: bool;

    // Step 1: tinytuya scan
    var ran := [Scan];
    if !o.scanOk {
      r := Run(ran, files, None, None, 1);
      return;
    }

    // Step 2: backup of the live file
    ran := [Scan, Backup];
    var copy := CopyFile(files, cfg.core, cfg.backup, o.backup);
    ok, files := copy.0, copy.1;
    if !ok {
      r := Run(ran, files, None, None, 1);
      return;
    }

    // Step 3: working copy of the live file
    ran := [Scan, Backup, Stage];
    copy := CopyFile(files, cfg.core, cfg.local, o.stage);
    ok, files := copy.0, copy.1;
    if !ok {
      r := Run(ran, files, None, None, 1);
      return;
    }

    // Step 4: migrate.py on the working copy
    ran := [Scan, Backup, Stage, Migrate];
    match o.migrate {
      case MigrateFailed =>
        r := Run(ran, files, None, None, 1);
        return;
      case MigrateSucceeded(rewrote) =>
        if rewrote.Some? {
          files := files[cfg.local := rewrote.value];
        }
    }

    // Step 5: working copy back over the live file
    ran := [Scan, Backup, Stage, Migrate, Commit];
    copy := CopyFile(files, cfg.local, cfg.core, o.commit);
    ok, files := copy.0, copy.1;
    if !ok {
      r := Run(ran, files, None, None, 1);
      return;
    }

    // Step 6: MQTT reboot request; any failure is logged and ignored
    ran := Order;
    var credentials := if cfg.username != "" && cfg.password != "" then Some((cfg.username, cfg.password)) else None;
    var published := if o.brokerReachable then Some(Message(cfg.topic, "reboot")) else None;
    r := Run(ran, files, credentials, published, 0);
  }
}
