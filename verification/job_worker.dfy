/** The queue worker's handler for one feed: create the run record, fetch,
    import, finalize, reporting progress along the way. The fetch's result,
    the store errors and the clock readings are parameters. */
module JobWorker {
  import opened Wrappers
  import JobFetcher
  import JobImport
  import JobTransformer
  import RunRecord

  /** What the handler resolves to on success (`success` is always true). */
  datatype Completion = Completion(stats: JobImport.ImportStats, url: string)

  /** How the handler's promise settles: resolved with its completion,
      rejected with an error, or never (the import loop does not end). */
  datatype Settlement = Resolves(completion: Completion) | Throws(error: string) | NeverSettles

  /** The handler's settlement, the progress values it reported in order,
      and the run records and job store it leaves behind (for a handler that
      never settles: the state its endless loop keeps). */
  datatype WorkerRun = WorkerRun(
    outcome: Settlement,
    progress: seq<nat>,
    logs: RunRecord.LogStore,
    store: JobImport.Store)

  /** The three clock readings: the run record's start, its end, and the
      reading the duration is computed from. */
  datatype Clock = Clock(start: int, end: int, measured: int)

  /** Whether the record store fails the calls made after the record was
      created: the checkpoint writes of the import, and the finalization.
      Each is independent of the creation, which succeeded. */
  datatype LaterFaults = LaterFaults(checkpoints: Option<string>, finalize: Option<string>)

  const FetchFailedDefault := "Failed to fetch jobs"

  /** `fetchResult.error || 'Failed to fetch jobs'`. */
  function FetchErrorMessage(error: Option<string>): (m: string)
    ensures m != ""
    ensures error.Some? && error.value != "" ==> m == error.value
  {
    if error.Some? && error.value != "" then error.value else FetchFailedDefault
  }

  /** The import statistics as the record's finalization receives them. */
  function AsFinalStats(s: JobImport.ImportStats): RunRecord.FinalStats {
    RunRecord.FinalStats(s.totalFetched, s.totalImported, s.newJobs, s.updatedJobs, s.failedJobs,
                         Some(s.failedJobsDetails))
  }

  /** The import loop ends: the batch size the code computes from the
      `BATCH_SIZE` setting is positive, or there is nothing to import. */
  predicate ImportEnds(jobs: seq<JobTransformer.Job>, batchSetting: Option<int>) {
    JobImport.BatchSizeAsWritten(batchSetting) > 0 || jobs == []
  }

  /** `processJob(job)` for a job whose data holds `url`. A failure to create
      the run record is rethrown before anything else happens (no record id,
      so nothing to finalize). A failed fetch is thrown after progress 10 and
      finalizes the record as failed with zero counters and the message.
      Otherwise the items are imported in batches of the size the code
      computes from the `BATCH_SIZE` setting (`batchSetting` is its parsed
      value, `None` when unset or not a number); when that loop ends the
      record is finalized as completed and the statistics returned, and
      when it does not the handler never settles. Finalization swallows
      store errors, so a handler can settle with its record unfinalized.
      Record ids are objects, so a created id is always truthy. */
  function ProcessJob(url: string, fetched: JobFetcher.FetchResult, batchSetting: Option<int>,
                      logs: RunRecord.LogStore, store: JobImport.Store, faults: JobImport.Faults,
                      later: LaterFaults, clock: Clock): (w: WorkerRun)
    requires RunRecord.Valid(logs)
    ensures w.outcome.NeverSettles? <==>
              RunRecord.CreateImportLog(logs, url, clock.start).Success? && fetched.success
              && !ImportEnds(fetched.jobs, batchSetting)
    ensures w.outcome.Resolves? ==> w.outcome.completion.url == url && w.progress == [10, 40, 90, 100]
    ensures w.outcome.Throws? ==> w.store == store && |w.progress| <= 1
  {
    match RunRecord.CreateImportLog(logs, url, clock.start)
    case Failure(e) => WorkerRun(Throws(e), [], logs, store)
    case Success(c) =>
      if !fetched.success then
        var msg := FetchErrorMessage(fetched.error);
        var logs' := RunRecord.FinalizeImportLog(c.store.(fault := later.finalize), c.id, RunRecord.ZeroStats,
                                                 RunRecord.Failed, Some(msg), clock.end, clock.measured);
        WorkerRun(Throws(msg), [10], logs', store)
      else
        match JobImport.ImportJobsAsWritten(fetched.jobs, JobImport.BatchSizeAsWritten(batchSetting), store, faults,
                                            c.store.(fault := later.checkpoints), c.id)
        case Spins(st, lg) => WorkerRun(NeverSettles, [10, 40], lg, st)
        case Finished(run) =>
          var logs' := RunRecord.FinalizeImportLog(run.logs.(fault := later.finalize), c.id, AsFinalStats(run.stats),
                                                   RunRecord.Completed, None, clock.end, clock.measured);
          WorkerRun(Resolves(Completion(run.stats, url)), [10, 40, 90, 100], logs', run.store)
  }

  /** The run record the handler created, when it created one. */
  function CreatedId(logs: RunRecord.LogStore, url: string, clock: Clock): nat
    requires RunRecord.Valid(logs) && RunRecord.CreateImportLog(logs, url, clock.start).Success?
  {
    RunRecord.CreateImportLog(logs, url, clock.start).value.id
  }

  /** A record whose counters are all zero. */
  predicate ZeroCounters(rec: RunRecord.ImportLog) {
    rec.totalFetched == 0 && rec.totalImported == 0 && rec.newJobs == 0 && rec.updatedJobs == 0
    && rec.failedJobs == 0
  }

  /** A record holding the statistics of an import of `fetched` items with
      this tally. */
  predicate RecordsTally(rec: RunRecord.ImportLog, fetched: nat, t: JobImport.Tally) {
    rec.totalFetched == fetched && rec.totalImported == t.newJobs + t.updatedJobs
    && rec.newJobs == t.newJobs && rec.updatedJobs == t.updatedJobs && rec.failedJobs == t.failedJobs
    && rec.failedJobsDetails == t.failedJobsDetails
  }

  /** When the record cannot be created, the handler throws that error at
      once: no progress, no record, no import. */
  lemma CreateFailureIsRethrown(url: string, fetched: JobFetcher.FetchResult, batchSetting: Option<int>,
                                logs: RunRecord.LogStore, store: JobImport.Store, faults: JobImport.Faults,
                                later: LaterFaults, clock: Clock)
    requires RunRecord.Valid(logs)
    requires logs.fault.Some? || url == ""
    ensures var w := ProcessJob(url, fetched, batchSetting, logs, store, faults, later, clock);
            && w.outcome == Throws(RunRecord.CreateImportLog(logs, url, clock.start).error)
            && w.progress == [] && w.logs == logs && w.store == store
  {
  }

  /** A failed fetch is thrown with its error (or the default message) after
      progress 10, and nothing is imported. When finalization reaches the
      store, the new record ends failed, with zero counters, that message,
      and the duration since its start. */
  lemma FetchFailureFinalizesFailed(url: string, fetched: JobFetcher.FetchResult, batchSetting: Option<int>,
                                    logs: RunRecord.LogStore, store: JobImport.Store, faults: JobImport.Faults,
                                    later: LaterFaults, clock: Clock)
    requires RunRecord.Valid(logs)
    requires logs.fault.None? && url != "" && !fetched.success
    ensures var w := ProcessJob(url, fetched, batchSetting, logs, store, faults, later, clock);
            && w.outcome == Throws(FetchErrorMessage(fetched.error))
            && w.progress == [10] && w.store == store
    ensures later.finalize.None? ==>
              var w := ProcessJob(url, fetched, batchSetting, logs, store, faults, later, clock);
              var id := CreatedId(logs, url, clock);
              && id in w.logs.records
              && w.logs.records[id].status == RunRecord.Failed
              && w.logs.records[id].error == Some(FetchErrorMessage(fetched.error))
              && ZeroCounters(w.logs.records[id])
              && w.logs.records[id].fileName == url
              && w.logs.records[id].duration == Some(clock.measured - clock.start)
  {
    var c := RunRecord.CreateImportLog(logs, url, clock.start).value;
    if later.finalize.None? {
      RunRecord.FinalizeStarted(c.store.(fault := None), c.id, RunRecord.ZeroStats, RunRecord.Failed,
                                Some(FetchErrorMessage(fetched.error)), clock.end, clock.measured, url, clock.start);
    }
  }

  /** A successful fetch whose import loop ends resolves with the URL and the
      statistics of importing the fetched items one by one, after progress
      10, 40, 90, 100, whatever happens to the record store afterwards. */
  lemma SuccessReturnsStats(url: string, fetched: JobFetcher.FetchResult, batchSetting: Option<int>,
                            logs: RunRecord.LogStore, store: JobImport.Store, faults: JobImport.Faults,
                            later: LaterFaults, clock: Clock)
    requires RunRecord.Valid(logs)
    requires logs.fault.None? && url != "" && fetched.success && ImportEnds(fetched.jobs, batchSetting)
    ensures var w := ProcessJob(url, fetched, batchSetting, logs, store, faults, later, clock);
            var all := JobImport.ProcessBatch(store, faults, fetched.jobs);
            && w.outcome.Resolves? && w.outcome.completion.url == url
            && w.outcome.completion.stats.totalFetched == |fetched.jobs|
            && w.outcome.completion.stats.newJobs == all.tally.newJobs
            && w.outcome.completion.stats.updatedJobs == all.tally.updatedJobs
            && w.outcome.completion.stats.failedJobs == all.tally.failedJobs
            && w.outcome.completion.stats.totalImported == all.tally.newJobs + all.tally.updatedJobs
            && w.progress == [10, 40, 90, 100] && w.store == all.store
  {
    var c := RunRecord.CreateImportLog(logs, url, clock.start).value;
    JobImport.ImportJobsAsWrittenEnds(fetched.jobs, JobImport.BatchSizeAsWritten(batchSetting), store, faults,
                                      c.store.(fault := later.checkpoints), c.id, c.id);
  }

  /** The path of a run whose record is created, whose fetch succeeds and
      whose import loop ends: the import finishes, the record is finalized
      as completed, and the handler resolves. */
  lemma CompletedPath(url: string, fetched: JobFetcher.FetchResult, batchSetting: Option<int>,
                      logs: RunRecord.LogStore, store: JobImport.Store, faults: JobImport.Faults,
                      later: LaterFaults, clock: Clock)
    requires RunRecord.Valid(logs)
    requires RunRecord.CreateImportLog(logs, url, clock.start).Success?
    requires fetched.success && ImportEnds(fetched.jobs, batchSetting)
    ensures var c := RunRecord.CreateImportLog(logs, url, clock.start).value;
            var r := JobImport.ImportJobsAsWritten(fetched.jobs, JobImport.BatchSizeAsWritten(batchSetting), store,
                                                   faults, c.store.(fault := later.checkpoints), c.id);
            && r.Finished?
            && ProcessJob(url, fetched, batchSetting, logs, store, faults, later, clock)
               == WorkerRun(Resolves(Completion(r.run.stats, url)), [10, 40, 90, 100],
                            RunRecord.FinalizeImportLog(r.run.logs.(fault := later.finalize), c.id,
                                                        AsFinalStats(r.run.stats), RunRecord.Completed, None,
                                                        clock.end, clock.measured),
                            r.run.store)
  {
  }

  /** ... and, when finalization reaches the store, the record ends
      completed, with no error and the duration since its start ... */
  lemma SuccessFinalizesCompleted(url: string, fetched: JobFetcher.FetchResult, batchSetting: Option<int>,
                                  logs: RunRecord.LogStore, store: JobImport.Store, faults: JobImport.Faults,
                                  later: LaterFaults, clock: Clock)
    requires RunRecord.Valid(logs)
    requires logs.fault.None? && url != "" && fetched.success && ImportEnds(fetched.jobs, batchSetting)
    requires later.finalize.None?
    ensures var w := ProcessJob(url, fetched, batchSetting, logs, store, faults, later, clock);
            var id := CreatedId(logs, url, clock);
            && id in w.logs.records
            && w.logs.records[id].status == RunRecord.Completed && w.logs.records[id].error.None?
            && w.logs.records[id].fileName == url
            && w.logs.records[id].duration == Some(clock.measured - clock.start)
  {
    var c := RunRecord.CreateImportLog(logs, url, clock.start).value;
    var lg := c.store.(fault := later.checkpoints);
    CompletedPath(url, fetched, batchSetting, logs, store, faults, later, clock);
    assert c.id in lg.records && lg.records[c.id].startTime == Some(clock.start) && lg.records[c.id].fileName == url;
    ImportThenFinalize(fetched.jobs, JobImport.BatchSizeAsWritten(batchSetting), store, faults, lg, c.id, url, clock);
  }

  /** Finalizing, as completed, the record an ended import checkpointed:
      the record keeps its URL and gets its duration from its start. */
  lemma ImportThenFinalize(jobs: seq<JobTransformer.Job>, size: int, store: JobImport.Store,
                           faults: JobImport.Faults, lg: RunRecord.LogStore, id: nat, url: string, clock: Clock)
    requires size > 0 || jobs == []
    requires id in lg.records && lg.records[id].startTime == Some(clock.start) && lg.records[id].fileName == url
    ensures var run := JobImport.ImportJobsAsWritten(jobs, size, store, faults, lg, id).run;
            var f := RunRecord.FinalizeImportLog(run.logs.(fault := None), id, AsFinalStats(run.stats),
                                                 RunRecord.Completed, None, clock.end, clock.measured);
            && id in f.records
            && f.records[id].status == RunRecord.Completed && f.records[id].error.None?
            && f.records[id].fileName == url
            && f.records[id].duration == Some(clock.measured - clock.start)
  {
    JobImport.ImportJobsAsWrittenEnds(jobs, size, store, faults, lg, id, id);
    var run := JobImport.ImportJobsAsWritten(jobs, size, store, faults, lg, id).run;
    RunRecord.FinalizeStarted(run.logs.(fault := None), id, AsFinalStats(run.stats), RunRecord.Completed, None,
                              clock.end, clock.measured, url, clock.start);
  }

  /** ... and it holds the statistics of importing the fetched items one by
      one, failure details included. */
  lemma SuccessRecordsStats(url: string, fetched: JobFetcher.FetchResult, batchSetting: Option<int>,
                            logs: RunRecord.LogStore, store: JobImport.Store, faults: JobImport.Faults,
                            later: LaterFaults, clock: Clock)
    requires RunRecord.Valid(logs)
    requires logs.fault.None? && url != "" && fetched.success && ImportEnds(fetched.jobs, batchSetting)
    requires later.finalize.None?
    ensures var w := ProcessJob(url, fetched, batchSetting, logs, store, faults, later, clock);
            var id := CreatedId(logs, url, clock);
            && id in w.logs.records
            && RecordsTally(w.logs.records[id], |fetched.jobs|, JobImport.ProcessBatch(store, faults, fetched.jobs).tally)
  {
    var c := RunRecord.CreateImportLog(logs, url, clock.start).value;
    JobImport.ImportJobsAsWrittenEnds(fetched.jobs, JobImport.BatchSizeAsWritten(batchSetting), store, faults,
                                      c.store.(fault := later.checkpoints), c.id, c.id);
  }

  /** With a batch size the code computes as negative and a non-empty feed,
      the handler never settles: it reported progress 40, the job store
      holds the import of `jobs.slice(0, size)`, and the record stays
      "processing". */
  lemma NegativeBatchSizeHangs(url: string, fetched: JobFetcher.FetchResult, batchSetting: Option<int>,
                               logs: RunRecord.LogStore, store: JobImport.Store, faults: JobImport.Faults,
                               later: LaterFaults, clock: Clock)
    requires RunRecord.Valid(logs)
    requires logs.fault.None? && url != "" && fetched.success && !ImportEnds(fetched.jobs, batchSetting)
    ensures var w := ProcessJob(url, fetched, batchSetting, logs, store, faults, later, clock);
            var id := CreatedId(logs, url, clock);
            var size := JobImport.BatchSizeAsWritten(batchSetting);
            && w.outcome.NeverSettles? && w.progress == [10, 40]
            && w.store == JobImport.ProcessBatch(store, faults, JobImport.JsSlice(fetched.jobs, 0, size)).store
            && id in w.logs.records && w.logs.records[id].status == RunRecord.Processing
  {
  }

  /** Once the handler has created its record, the record is left
      "processing" exactly when finalization cannot reach the store (its
      error is swallowed) or the import loop never ends; otherwise it ends
      completed or failed. */
  lemma RecordLeftProcessingExactly(url: string, fetched: JobFetcher.FetchResult, batchSetting: Option<int>,
                                    logs: RunRecord.LogStore, store: JobImport.Store, faults: JobImport.Faults,
                                    later: LaterFaults, clock: Clock)
    requires RunRecord.Valid(logs)
    requires RunRecord.CreateImportLog(logs, url, clock.start).Success?
    ensures var w := ProcessJob(url, fetched, batchSetting, logs, store, faults, later, clock);
            var id := CreatedId(logs, url, clock);
            && id in w.logs.records
            && (w.logs.records[id].status == RunRecord.Processing <==>
                  later.finalize.Some? || (fetched.success && !ImportEnds(fetched.jobs, batchSetting)))
  {
    var c := RunRecord.CreateImportLog(logs, url, clock.start).value;
    if !fetched.success {
      FetchFailureFinalizesFailed(url, fetched, batchSetting, logs, store, faults, later, clock);
    } else if ImportEnds(fetched.jobs, batchSetting) {
      JobImport.ImportJobsAsWrittenEnds(fetched.jobs, JobImport.BatchSizeAsWritten(batchSetting), store, faults,
                                        c.store.(fault := later.checkpoints), c.id, c.id);
      if later.finalize.None? {
        SuccessFinalizesCompleted(url, fetched, batchSetting, logs, store, faults, later, clock);
      }
    } else {
      NegativeBatchSizeHangs(url, fetched, batchSetting, logs, store, faults, later, clock);
    }
  }

  /** Whenever the handler created a run record, finalization reaches the
      store, and the import loop ends, that record is no longer "processing"
      when the handler returns or throws. */
  lemma NoRecordLeftProcessing(url: string, fetched: JobFetcher.FetchResult, batchSetting: Option<int>,
                               logs: RunRecord.LogStore, store: JobImport.Store, faults: JobImport.Faults,
                               later: LaterFaults, clock: Clock)
    requires RunRecord.Valid(logs)
    requires RunRecord.CreateImportLog(logs, url, clock.start).Success?
    requires later.finalize.None? && ImportEnds(fetched.jobs, batchSetting)
    ensures var w := ProcessJob(url, fetched, batchSetting, logs, store, faults, later, clock);
            var id := CreatedId(logs, url, clock);
            id in w.logs.records && w.logs.records[id].status != RunRecord.Processing
  {
    RecordLeftProcessingExactly(url, fetched, batchSetting, logs, store, faults, later, clock);
  }

  /** The progress reports of a run that stopped after creating the record
      (`created`), after fetching (`fetchedOk`) and after importing
      (`imported`). */
  function ProgressOf(created: bool, fetchedOk: bool, imported: bool): seq<int> {
    if !created then [] else if !fetchedOk then [10] else if !imported then [10, 40] else [10, 40, 90, 100]
  }

  /** Each possible list of reports rises strictly, and ends at 100 exactly
      for a run that got through the import. */
  lemma ProgressOfRises(created: bool, fetchedOk: bool, imported: bool)
    ensures var p := ProgressOf(created, fetchedOk, imported);
            && (forall i, j :: 0 <= i < j < |p| ==> p[i] < p[j])
            && (|p| > 0 && p[|p| - 1] == 100 <==> created && fetchedOk && imported)
  {
  }

  /** The handler reports the progress of the stage it reached, and resolves
      exactly when it got through the import. */
  lemma ProcessJobProgress(url: string, fetched: JobFetcher.FetchResult, batchSetting: Option<int>,
                           logs: RunRecord.LogStore, store: JobImport.Store, faults: JobImport.Faults,
                           later: LaterFaults, clock: Clock)
    requires RunRecord.Valid(logs)
    ensures var w := ProcessJob(url, fetched, batchSetting, logs, store, faults, later, clock);
            var created := RunRecord.CreateImportLog(logs, url, clock.start).Success?;
            var ends := ImportEnds(fetched.jobs, batchSetting);
            && w.progress == ProgressOf(created, fetched.success, ends)
            && (w.outcome.Resolves? <==> created && fetched.success && ends)
  {
  }

  /** The progress reports rise strictly, and reach 100 exactly when the
      handler resolves. */
  lemma ProgressRises(url: string, fetched: JobFetcher.FetchResult, batchSetting: Option<int>,
                      logs: RunRecord.LogStore, store: JobImport.Store, faults: JobImport.Faults,
                      later: LaterFaults, clock: Clock)
    requires RunRecord.Valid(logs)
    ensures var w := ProcessJob(url, fetched, batchSetting, logs, store, faults, later, clock);
            && (forall i, j :: 0 <= i < j < |w.progress| ==> w.progress[i] < w.progress[j])
            && (w.outcome.Resolves? <==> |w.progress| > 0 && w.progress[|w.progress| - 1] == 100)
  {
    var created := RunRecord.CreateImportLog(logs, url, clock.start).Success?;
    ProcessJobProgress(url, fetched, batchSetting, logs, store, faults, later, clock);
    ProgressOfRises(created, fetched.success, ImportEnds(fetched.jobs, batchSetting));
  }
}
