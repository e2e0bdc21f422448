/** The records BackiieTUI keeps about every backup (domain/entities).

    A point in time is a number of nanoseconds; `ZERO_TIME` is Go's zero `time.Time`. */
module Entities {

  datatype Option<+T> = None | Some(value: T)

  type Time = int
  type Bytes = seq<bv8>

  const ZERO_TIME: Time := 0
  const NANOS_PER_MILLI := 1_000_000

  datatype EngineType = SQLServer | MySQL | MariaDB | Postgres | Redis

  /** The value of the engine's constant: the first component of every object key. */
  function EngineName(e: EngineType): string {
    match e
    case SQLServer => "sqlserver"
    case MySQL => "mysql"
    case MariaDB => "mariadb"
    case Postgres => "postgres"
    case Redis => "redis"
  }

  /** `Unset` is the empty type of records written before the field existed; it counts as full. */
  datatype BackupType = Full | Log | Unset

  datatype BackupStatus = Pending | Running | Completed | Failed | Expired

  datatype BackupRecord = BackupRecord(
    id: string,
    instanceID: string,
    instanceName: string,
    databaseName: string,
    fileName: string,
    engine: EngineType,
    backupType: BackupType,
    parentBackupID: string,
    sizeBytes: int,
    hashSHA256: string,
    status: BackupStatus,
    errorMessage: string,
    startedAt: Time,
    completedAt: Option<Time>,
    expiresAt: Time,
    retainDays: int,
    durationMs: int)
  {
    predicate IsFull() {
      backupType != Log
    }

    predicate CompletedFull() {
      IsFull() && status == Completed
    }

    predicate CompletedLog() {
      !IsFull() && status == Completed
    }

    /** The full backup whose chain this record belongs to: itself, or the parent of a log. */
    function Owner(): string {
      if IsFull() then id else parentBackupID
    }
  }

  /** A retention policy never lets an (instance, database) pair go below this many verified fulls. */
  const MIN_VERIFIED_FULL_BACKUPS := 2

  const DELETED_MESSAGE := "eliminado manualmente"

  /** `Duration.Milliseconds`, which truncates toward zero. */
  function Milliseconds(d: int): int {
    if d >= 0 then d / NANOS_PER_MILLI else -((-d) / NANOS_PER_MILLI)
  }

  /** What `UpdateStatus` stores in place of `r`. */
  function WithStatus(r: BackupRecord, status: BackupStatus, message: string, now: Time): BackupRecord {
    var s := r.(status := status, errorMessage := message);
    if status == Completed || status == Failed then
      s.(completedAt := Some(now), durationMs := Milliseconds(now - r.startedAt))
    else
      s
  }

  /** What deleting a backup leaves of its record. */
  function Expire(r: BackupRecord): BackupRecord {
    r.(status := Expired, errorMessage := DELETED_MESSAGE)
  }
}
