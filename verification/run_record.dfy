/** The run record of one feed import (the `ImportLog` document) and the
    helpers that create, checkpoint and finalize it. The record store is a
    map from record id to record; a store that is down makes every call
    throw its message. */
module RunRecord {
  import opened Wrappers
  import JobTransformer

  datatype RunStatus = Pending | Processing | Completed | Failed

  /** One failed item: the id shown for it, why it failed, and the item.
      (The stack trace the source also stores is left out.) */
  datatype FailedJob = FailedJob(jobId: string, reason: string, data: JobTransformer.Job)

  /** The three counters a checkpoint writes. */
  datatype Counters = Counters(newJobs: nat, updatedJobs: nat, failedJobs: nat)

  /** Times are milliseconds since the epoch. */
  datatype ImportLog = ImportLog(
    fileName: string,
    status: RunStatus,
    totalFetched: nat,
    totalImported: nat,
    newJobs: nat,
    updatedJobs: nat,
    failedJobs: nat,
    failedJobsDetails: seq<FailedJob>,
    startTime: Option<int>,
    endTime: Option<int>,
    duration: Option<int>,
    error: Option<string>)

  /** The record collection: records by id, the next unused id, and the
      message every operation throws while the store is unreachable. */
  datatype LogStore = LogStore(records: map<nat, ImportLog>, nextId: nat, fault: Option<string>)

  /** Every stored id was handed out before `nextId`. */
  predicate Valid(ls: LogStore) {
    forall id :: id in ls.records ==> id < ls.nextId
  }

  const FileNameRequired := "ImportLog validation failed: fileName: Path `fileName` is required."

  /** A created record and its id. */
  datatype Created = Created(store: LogStore, id: nat)

  /** `createImportLog(fileName)`: a fresh record in state processing, started
      now, with every counter at its schema default 0. A store error, or an
      empty file name (the schema requires one), is rethrown. */
  function CreateImportLog(ls: LogStore, fileName: string, now: int): (r: Result<Created>)
    requires Valid(ls)
    ensures r.Failure? <==> ls.fault.Some? || fileName == ""
    ensures r.Failure? && ls.fault.Some? ==> r.error == ls.fault.value
    ensures r.Success? ==> Valid(r.value.store) && r.value.id !in ls.records
    ensures r.Success? ==> r.value.store.records.Keys == ls.records.Keys + {r.value.id}
    ensures r.Success? ==> forall id :: id in ls.records ==> r.value.store.records[id] == ls.records[id]
    ensures r.Success? ==>
              var rec := r.value.store.records[r.value.id];
              rec.fileName == fileName && rec.status == Processing && rec.startTime == Some(now)
              && rec.totalFetched == 0 && rec.newJobs == 0 && rec.updatedJobs == 0 && rec.failedJobs == 0
              && rec.failedJobsDetails == [] && rec.endTime.None? && rec.duration.None? && rec.error.None?
  {
    if ls.fault.Some? then Failure(ls.fault.value)
    else if fileName == "" then Failure(FileNameRequired)
    else
      var rec := ImportLog(fileName, Processing, 0, 0, 0, 0, 0, [], Some(now), None, None, None);
      Success(Created(LogStore(ls.records[ls.nextId := rec], ls.nextId + 1, ls.fault), ls.nextId))
  }

  /** `updateImportLog(id, counters)`: sets the three counters of an existing
      record; a missing record or a store error changes nothing and is not
      reported. */
  function UpdateImportLog(ls: LogStore, id: nat, c: Counters): (r: LogStore)
    ensures r.records.Keys == ls.records.Keys && r.nextId == ls.nextId && r.fault == ls.fault
    ensures forall k :: k in ls.records && k != id ==> r.records[k] == ls.records[k]
    ensures (ls.fault.Some? || id !in ls.records) ==> r == ls
    ensures (ls.fault.None? && id in ls.records) ==>
              r.records[id] == ls.records[id].(newJobs := c.newJobs, updatedJobs := c.updatedJobs,
                                               failedJobs := c.failedJobs)
  {
    if ls.fault.Some? || id !in ls.records then ls
    else
      var rec := ls.records[id];
      ls.(records := ls.records[id := rec.(newJobs := c.newJobs, updatedJobs := c.updatedJobs,
                                           failedJobs := c.failedJobs)])
  }

  /** A checkpoint overwrites the previous one: only the latest counters remain. */
  lemma UpdateOverwrites(ls: LogStore, id: nat, c1: Counters, c2: Counters)
    ensures UpdateImportLog(UpdateImportLog(ls, id, c1), id, c2) == UpdateImportLog(ls, id, c2)
  {
    if ls.fault.None? && id in ls.records {
      var r1 := UpdateImportLog(ls, id, c1);
      var r2 := UpdateImportLog(r1, id, c2);
      assert r2.records == UpdateImportLog(ls, id, c2).records;
    }
  }

  /** The statistics spread into the record on finalization. The failure path
      passes no details, which leaves the stored ones as they were. */
  datatype FinalStats = FinalStats(
    totalFetched: nat,
    totalImported: nat,
    newJobs: nat,
    updatedJobs: nat,
    failedJobs: nat,
    failedJobsDetails: Option<seq<FailedJob>>)

  /** All counters zero and no details: what a failed run records. */
  const ZeroStats := FinalStats(0, 0, 0, 0, 0, None)

  /** `finalizeImportLog(id, stats, status, error)`: sets the status, the
      statistics, the end time and the error; when the record has a start
      time, the duration is the clock reading `measuredAt` minus it. A store
      error or a missing record changes nothing and is not reported. */
  function FinalizeImportLog(ls: LogStore, id: nat, stats: FinalStats, status: RunStatus,
                             error: Option<string>, endTime: int, measuredAt: int): (r: LogStore)
    ensures r.records.Keys == ls.records.Keys && r.nextId == ls.nextId && r.fault == ls.fault
    ensures forall k :: k in ls.records && k != id ==> r.records[k] == ls.records[k]
    ensures (ls.fault.Some? || id !in ls.records) ==> r == ls
    ensures (ls.fault.None? && id in ls.records) ==>
              var prev := ls.records[id];
              var rec := r.records[id];
              rec.status == status && rec.error == error && rec.endTime == Some(endTime)
              && rec.totalFetched == stats.totalFetched && rec.totalImported == stats.totalImported
              && rec.newJobs == stats.newJobs && rec.updatedJobs == stats.updatedJobs
              && rec.failedJobs == stats.failedJobs
              && rec.failedJobsDetails == stats.failedJobsDetails.GetOr(prev.failedJobsDetails)
              && rec.fileName == prev.fileName && rec.startTime == prev.startTime
              && (prev.startTime.Some? ==> rec.duration == Some(measuredAt - prev.startTime.value))
              && (prev.startTime.None? ==> rec.duration == prev.duration)
  {
    if ls.fault.Some? || id !in ls.records then ls
    else
      var rec := ls.records[id];
      var duration := if rec.startTime.Some? then Some(measuredAt - rec.startTime.value) else rec.duration;
      var updated := rec.(
        status := status,
        totalFetched := stats.totalFetched,
        totalImported := stats.totalImported,
        newJobs := stats.newJobs,
        updatedJobs := stats.updatedJobs,
        failedJobs := stats.failedJobs,
        failedJobsDetails := stats.failedJobsDetails.GetOr(rec.failedJobsDetails),
        endTime := Some(endTime),
        duration := duration,
        error := error);
      ls.(records := ls.records[id := updated])
  }

  /** A record created at `start` and finalized with the clock at `measuredAt`
      ends in the given state with duration `measuredAt - start`. */
  lemma CreateThenFinalize(ls: LogStore, fileName: string, start: int, stats: FinalStats, status: RunStatus,
                           error: Option<string>, endTime: int, measuredAt: int)
    requires Valid(ls) && ls.fault.None? && fileName != ""
    ensures var c := CreateImportLog(ls, fileName, start).value;
            var rec := FinalizeImportLog(c.store, c.id, stats, status, error, endTime, measuredAt).records[c.id];
            rec.status == status && rec.duration == Some(measuredAt - start) && rec.fileName == fileName
  {
  }

  /** Finalizing a record that started at `start` leaves it in the given
      status with that error, its file name, and duration `measuredAt - start`. */
  lemma FinalizeStarted(ls: LogStore, id: nat, stats: FinalStats, status: RunStatus, error: Option<string>,
                        endTime: int, measuredAt: int, fileName: string, start: int)
    requires ls.fault.None? && id in ls.records
    requires ls.records[id].startTime == Some(start) && ls.records[id].fileName == fileName
    ensures var r := FinalizeImportLog(ls, id, stats, status, error, endTime, measuredAt);
            && id in r.records
            && r.records[id].status == status && r.records[id].error == error
            && r.records[id].fileName == fileName && r.records[id].duration == Some(measuredAt - start)
  {
  }
}
