/**
 * The `EtlRun` collection's schema: one document per ETL run with a unique
 * `run_id`, start and end times, a status from a four-value enum, six stats
 * counters, an optional resume pointer, and a list of error entries.
 */
module EtlRunModel {
  import opened Wrappers

  /** The `status` enum. */
  datatype Status = Started | Completed | Failed | CompletedWithWarnings

  function StatusName(s: Status): string {
    match s
    case Started => "started"
    case Completed => "completed"
    case Failed => "failed"
    case CompletedWithWarnings => "completed_with_warnings"
  }

  /** The enum validator: a status string is accepted only when it is one of the four names. */
  function ParseStatus(name: string): (r: Option<Status>)
    ensures r.Some? <==> name in {"started", "completed", "failed", "completed_with_warnings"}
  {
    if name == "started" then Some(Started)
    else if name == "completed" then Some(Completed)
    else if name == "failed" then Some(Failed)
    else if name == "completed_with_warnings" then Some(CompletedWithWarnings)
    else None
  }

  /** Status names and the enum validator agree in both directions. */
  lemma ParseStatusName(name: string, s: Status)
    ensures ParseStatus(name) == Some(s) <==> StatusName(s) == name
  {
  }

  /** The six counters of `stats`. */
  datatype RunStats = RunStats(
    extracted: int, loaded: int, duplicates: int,
    quarantined: int, errors: int, throttle_events: int)

  /** Every counter at its default. */
  const ZeroStats := RunStats(0, 0, 0, 0, 0, 0)

  datatype ResumePoint = ResumePoint(batch_no: Option<int>, offset: Option<int>)

  /** One entry of `errors`; `details` holds the error's stack trace. */
  datatype RunError = RunError(message: string, details: string, timestamp: int)

  /** An ETL run document; times are milliseconds since the epoch. */
  datatype EtlRun = EtlRun(
    run_id: string,
    start_time: int,
    end_time: Option<int>,
    status: Status,
    stats: RunStats,
    resume_from: Option<ResumePoint>,
    errors: seq<RunError>)

  const RunIdPrefix: string := "run_"

  /** The `run_id` default, built from a freshly generated UUID. */
  function DefaultRunId(uuid: string): (r: string)
    ensures |r| == |RunIdPrefix| + |uuid| && r[..|RunIdPrefix|] == RunIdPrefix && r[|RunIdPrefix|..] == uuid
  {
    RunIdPrefix + uuid
  }

  /** Distinct UUIDs give distinct run ids, so the unique index on `run_id` is kept by distinct UUIDs. */
  lemma DefaultRunIdInjective(u1: string, u2: string)
    ensures DefaultRunId(u1) == DefaultRunId(u2) <==> u1 == u2
  {
    if DefaultRunId(u1) == DefaultRunId(u2) {
      assert u1 == DefaultRunId(u1)[|RunIdPrefix|..];
      assert u2 == DefaultRunId(u2)[|RunIdPrefix|..];
    }
  }

  /** An error entry whose `timestamp` takes its default, the time it is pushed. */
  function NewRunError(message: string, details: string, now: int): (e: RunError)
    ensures e.message == message && e.details == details && e.timestamp == now
  {
    RunError(message, details, now)
  }

  /**
   * The lifecycle invariant of a run document: it ends exactly when it leaves
   * "started", never before it started, and only a failed run carries errors.
   */
  predicate Lifecycle(r: EtlRun) {
    && (r.status == Started <==> r.end_time.None?)
    && (r.end_time.Some? ==> r.end_time.value >= r.start_time)
    && (r.errors != [] ==> r.status == Failed)
  }

  /** `new EtlRun()`: every default of the schema applied at time `now`. */
  function NewEtlRun(uuid: string, now: int): (r: EtlRun)
    ensures Lifecycle(r)
    ensures r.status == Started && r.end_time.None? && r.start_time == now
    ensures r.stats == ZeroStats && r.errors == [] && r.resume_from.None?
    ensures r.run_id == DefaultRunId(uuid)
  {
    EtlRun(DefaultRunId(uuid), now, None, Started, ZeroStats, None, [])
  }

  /** The run state machine: "started" is the only non-terminal status. */
  predicate Transition(from: Status, to: Status) {
    from == Started && to != Started
  }

  /** Finishing a started run with a terminal status and a later end time keeps the lifecycle invariant. */
  lemma FinishKeepsLifecycle(r: EtlRun, to: Status, endTime: int, errs: seq<RunError>)
    requires Lifecycle(r) && r.status == Started && r.errors == []
    requires Transition(r.status, to) && endTime >= r.start_time
    requires errs != [] ==> to == Failed
    ensures Lifecycle(r.(status := to, end_time := Some(endTime), errors := errs))
  {
  }
}
