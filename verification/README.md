# Tuya IP migration: a Dafny model

This project models the two scripts that move Tuya devices in a Home Assistant
configuration to their current local IP addresses.

- `migrate.py` builds an index from device id to IP out of the
  `devices` list of a `tinytuya scan` snapshot. A record is indexed only when
  its `id` and `ip` are both truthy, and a later duplicate overwrites an earlier
  one. The script then walks the ordered `data.entries` list of
  `core.config_entries`. Every entry whose nested `data.device_id` is in the
  index has its nested `data.host` overwritten with the indexed IP, and the
  script appends one log line per rewritten entry and sets the `updated` flag.
  The document is written back only when `updated` is set.
- `full_migrate.py` reads its settings from the environment through
  `get_env_var`. It then runs six steps in a fixed order: scan, backup of the
  live config file, staging of a working copy, `migrate.py`, commit of the
  working copy over the live file, and an MQTT `reboot` request. It exits with
  status 1 at the first of the first five steps that fails. A failure of the
  MQTT step is caught and ignored.

Files:

- `wrappers.dfy`: `Option` and `Result`.
- `migrate.dfy`, module `Migrate`: the snapshot index, the reconciliation of
  the entry list, and the lemmas about them. The entry loop is a method that
  updates an `array` of entries in place. The script's top level is a method
  that allocates that array from the document and returns the document to
  write back.
- `full_migrate.dfy`, module `FullMigrate`: `get_env_var`, the start-up
  settings, and the pipeline. The pipeline is a straight-line method with
  early exits. It works over a file system given as a value (a map from path
  to contents), and the outcome of every external action is an input.

What is outside the scripts is a parameter or an input:

- `os.path.normpath` is a function parameter `normpath`.
- The environment is a map.
- Each subprocess run, file copy and MQTT broker is represented by its outcome.

## Model

| member | source | states |
|---|---|---|
| `Migrate.BuildIndex` | migrate.py:12-19 | The index-building loop yields exactly `SnapshotIndex(devices)`, the map folded over the records in list order. |
| `Migrate.IndexKeys` | migrate.py:13-19 | An id is a key of the index iff some record carries it with both `id` and `ip` present and non-empty. Records lacking either are skipped. |
| `Migrate.IndexLastWins` | migrate.py:13-17 | For an id carried by several usable records, the index maps it to the `ip` of the last of them in list order. |
| `Migrate.Reconciled` | migrate.py:44-59 | An unmatched entry (no `data`, no string `device_id`, or an id not in the index) comes back unchanged. A matched entry gets `data.host` equal to the indexed IP, added when absent. Its title, its other keys and every other key of `data` are unchanged. Its device id is preserved. |
| `Migrate.LogLine` | migrate.py:47-56 | A log line is `Updated `, the title, a space, the device id and `: `, then the old host, ` -> ` and the new IP, which ends the line. The line is exactly these parts, with nothing between them. A missing title is printed as `None` and a missing host as `N/A`. |
| `Migrate.ReconcileAllAt` | migrate.py:39-59 | Reconciliation keeps the length and order of the entry list. Output entry i is input entry i reconciled on its own. |
| `Migrate.ReconcileIsSelective` | migrate.py:44-59 | Over the whole list: no entry is added or removed, and unmatched entries are untouched. A matched entry changes only in `data.host`, which becomes the indexed IP. |
| `Migrate.ChangesAppend` | migrate.py:42-56 | The log of a concatenation of entry lists is the concatenation of their logs. So there is one record per matched entry, in entry order. |
| `Migrate.ChangesNonEmptyIff` | migrate.py:35-57 | At least one change is logged (so `updated` is set) iff at least one entry matches. |
| `Migrate.ChangesAreCorrect` | migrate.py:52-56 | Every logged change belongs to a matched entry and carries that entry's title, id and host before the rewrite. Its new IP is the index's IP for the id and is what the entry's host holds afterwards. |
| `Migrate.ReconcileIdempotent` | migrate.py:52-55 | A second pass with the same index over the first pass's output changes no entry, and so no host. |
| `Migrate.SecondPassRelogs` | migrate.py:52-57 | The second pass still logs one record per record of the first pass, each with old host equal to new IP. The code has no "already equal, skip" branch. |
| `Migrate.ReconcileInPlace` | migrate.py:35-59 | The in-place loop leaves the array equal to `ReconcileAll` of its old contents. It returns the log lines of `Changes` in order, and `updated` iff some entry matched. |
| `Migrate.RunMigrate` | migrate.py:12-72 | The document is written back iff some entry matches. The written document is the input with only its entry list reconciled. The log is one line per matched entry. |
| `FullMigrate.ReplaceBackslashes` | full_migrate.py:82 | Length is kept. Every backslash becomes `/`, every other character is kept, and no backslash remains. |
| `FullMigrate.GetEnvVar` | full_migrate.py:62-84 | Fails, naming the variable, iff the variable is unset. The value of a path-like name (lower-cased name contains `path`, `file` or `dir`) is `normpath` of the value with backslashes replaced. Any other value is returned verbatim. |
| `FullMigrate.EmptyValueAccepted` | full_migrate.py:75-77 | An empty value is not an error. It comes back empty, or `normpath("")` for a path-like name. |
| `FullMigrate.GetAll` | full_migrate.py:88-106 | Reading a list of variables in order succeeds iff all are set. It then yields each `get_env_var` value in order. Otherwise the error names the first unset variable. |
| `FullMigrate.LoadConfig` | full_migrate.py:87-106 | Start-up succeeds iff all twelve settings are set. Otherwise it stops at the first unset one, in the order the script reads them. |
| `FullMigrate.LoadedPathsNormalised` | full_migrate.py:88-99 | The log, snapshot, live, backup and working-copy paths are the settings with backslashes replaced, then normalised: each of these names contains `file`. |
| `FullMigrate.LoadedOthersVerbatim` | full_migrate.py:89-106 | Log level and format, broker, port, username, password and topic are the settings verbatim, empty strings included. None of these names contains `path`, `file` or `dir`; `MQTT_PASSWORD` contains "pass", not "path". |
| `FullMigrate.CopyFile` | full_migrate.py:156-158 | A copy succeeds iff the source exists and the I/O succeeds. Only the destination can change. On success it holds the source as read, which is empty when the destination is the source, since opening it for writing truncates it. A missing source changes nothing. |
| `FullMigrate.FirstFailure` | full_migrate.py:129-202 | The step at which a run stops is the one that failed, and every step before it succeeded: scan; then backup, when the live file is missing or the copy fails; then staging, migrate and commit. The notification is never the failing step. No step fails iff the scan succeeds, the live file exists, and backup, staging, migrate and commit all succeed. |
| `FullMigrate.RunPipeline` | full_migrate.py:129-226 | Steps run as a prefix of scan, backup, stage, migrate, commit, notify, in order. The run stops at the first failing step with exit status 1, and otherwise runs all six steps with status 0 whatever the broker does. Credentials are set iff both are non-empty. There is at most one publish, of `reboot` to the topic. Of the files the model tracks, all but the live file, backup and working copy are untouched, and the live file is untouched before commit. With three distinct paths, backup and working copy hold the live contents as read, and a successful run leaves the migrated working copy in the live file. |

## Behaviour of the code worth knowing

The model follows the code:

- There is no "already equal, skip" branch. A matched entry whose host already
  holds the indexed IP is rewritten, logged and sets `updated`
  (migrate.py:52-57). So a second run logs again and writes the document back,
  although no host changes (`SecondPassRelogs`, `ReconcileIdempotent`).
- The docstring of `get_env_var` says an empty value raises. The code raises
  only for an unset variable (full_migrate.py:75-77, `EmptyValueAccepted`).
- The scan step checks only the scanner's exit status (full_migrate.py:133).
  Whether the snapshot file was written is not checked.
- An unmatched entry only produces a console message (migrate.py:59), which is
  not modelled.

## Left out

- JSON text: parsing (`json.load`) and serialisation (`json.dump`) are not
  modelled. Documents, entries and device records are abstract values.
- Non-string `id`, `ip` and `device_id` values are not modelled. Ids and IPs
  are strings, and a non-string `device_id` never matches. Other JSON values
  are opaque. In particular, an unhashable list or object used as an id, which
  crashes the script, is not modelled.
- Entries whose `data` is not an object, and `entries` lists holding
  non-objects, make the script crash. They cannot be represented.
- A missing `data.entries` path behaves like an empty list. The model
  represents it as one.
- The load-failure paths of migrate.py (lines 8-9 and 28-29) are not modelled.
  They print and then crash with a `NameError`. In the pipeline that crash is
  the `MigrateFailed` outcome.
- RunMigrate: the outcome of the final write (migrate.py:63-70) is not
  modelled. The method returns the document to be written. A caught write
  error, which may leave a truncated file, appears in the pipeline only as
  whatever the migrate outcome says the working copy holds.
- Console and log-file output is not modelled: `print`, `log`,
  `logging.basicConfig`, the skipped-device messages and the captured
  subprocess output.
- `dotenv` loading is not modelled (full_migrate.py:53-60).
- The subprocesses `tinytuya scan` and `python migrate.py` are not modelled.
  Each is represented by its outcome. The snapshot file that the scanner
  writes is not tracked.
- `migrate.py` opens hard-coded relative file names. The model takes it to act
  on the configured working copy.
- RunPipeline: the migrate step's effect on the working copy is an input
  (`MigrateSucceeded(rewrote)`). It is not derived from `RunMigrate`, because
  the file holds JSON text, which is not modelled.
- MQTT client internals (connect, keepalive, publish, disconnect) are not
  modelled. A publish is counted as attempted when the broker can be reached.
  Whether the broker accepted it is not modelled.
- The body of `os.path.normpath` is not modelled. It is the parameter
  `normpath`.
- Lower: models `str.lower()` for ASCII letters only; other upper-case letters are kept.
- The conversion `int(MQTT_PORT)` and `getattr(logging, LOG_LEVEL)` are not
  modelled. Either can crash start-up on a bad value, and the port is kept as
  text.
