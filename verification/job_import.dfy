/** Importing transformed postings into the job store in batches: per-item
    validation and find-then-create-or-update, the significant-change test,
    the per-batch tallies and the cumulative checkpoints written to the run
    record. The store is a map from jobId to posting; store errors for an id
    are a parameter. */
module JobImport {
  import opened Wrappers
  import opened Strings
  import opened JobTransformer
  import RunRecord
  import opened Numbers

  /** The job collection, keyed by the unique jobId. */
  type Store = map<string, Job>

  /** The message the store throws for any operation on a given jobId. */
  type Faults = map<string, string>

  const DefaultBatchSize: nat := 100

  // ---- Significant changes ----

  /** The five compared fields: title, description, location, company, jobType. */
  function ComparedFields(j: Job): seq<string> {
    [Shown(j.title), j.description, j.location, j.company, j.jobType]
  }

  /** Some field of `a` differs from the matching field of `b` once both are
      trimmed (`String(x || '').trim()`). */
  predicate SomeTrimmedDiffers(a: seq<string>, b: seq<string>)
    requires |a| == |b|
  {
    a != [] && (Trim(a[0]) != Trim(b[0]) || SomeTrimmedDiffers(a[1..], b[1..]))
  }

  lemma {:induction false} SomeTrimmedDiffersSpec(a: seq<string>, b: seq<string>)
    requires |a| == |b|
    ensures SomeTrimmedDiffers(a, b) <==> exists i :: 0 <= i < |a| && Trim(a[i]) != Trim(b[i])
  {
    if a != [] {
      SomeTrimmedDiffersSpec(a[1..], b[1..]);
      if exists i :: 0 <= i < |a| && Trim(a[i]) != Trim(b[i]) {
        var i :| 0 <= i < |a| && Trim(a[i]) != Trim(b[i]);
        if i > 0 {
          assert a[1..][i - 1] == a[i] && b[1..][i - 1] == b[i];
        }
      }
    }
  }

  /** `hasSignificantChanges(existing, job)`: a significant change is a
      compared field that differs after trimming. */
  function HasSignificantChanges(existing: Job, job: Job): (r: bool)
    ensures r <==> exists i :: 0 <= i < 5 && Trim(ComparedFields(existing)[i]) != Trim(ComparedFields(job)[i])
  {
    SomeTrimmedDiffersSpec(ComparedFields(existing), ComparedFields(job));
    SomeTrimmedDiffers(ComparedFields(existing), ComparedFields(job))
  }

  lemma {:induction false} SomeTrimmedDiffersIrreflexive(a: seq<string>)
    ensures !SomeTrimmedDiffers(a, a)
  {
    if a != [] {
      SomeTrimmedDiffersIrreflexive(a[1..]);
    }
  }

  lemma {:induction false} SomeTrimmedDiffersSymmetric(a: seq<string>, b: seq<string>)
    requires |a| == |b|
    ensures SomeTrimmedDiffers(a, b) == SomeTrimmedDiffers(b, a)
  {
    if a != [] {
      SomeTrimmedDiffersSymmetric(a[1..], b[1..]);
    }
  }

  /** A posting never differs significantly from itself, and the test is
      symmetric. */
  lemma SignificantChangesIrreflexiveSymmetric(a: Job, b: Job)
    ensures !HasSignificantChanges(a, a)
    ensures HasSignificantChanges(a, b) == HasSignificantChanges(b, a)
  {
    SomeTrimmedDiffersIrreflexive(ComparedFields(a));
    SomeTrimmedDiffersSymmetric(ComparedFields(a), ComparedFields(b));
  }

  /** Only the five compared fields count: changing anything else (the URL,
      dates, category, region, salary, source, raw data, the active flag, the
      jobId itself) is never a significant change, and neither is changing
      surrounding whitespace. */
  lemma SignificantChangesIgnoreOtherFields(a: Job, a2: Job, b: Job)
    requires forall i :: 0 <= i < 5 ==> Trim(ComparedFields(a2)[i]) == Trim(ComparedFields(a)[i])
    ensures HasSignificantChanges(a2, b) == HasSignificantChanges(a, b)
    ensures !HasSignificantChanges(a, a2)
  {
    if HasSignificantChanges(a2, b) {
      var i :| 0 <= i < 5 && Trim(ComparedFields(a2)[i]) != Trim(ComparedFields(b)[i]);
      assert Trim(ComparedFields(a)[i]) != Trim(ComparedFields(b)[i]);
    }
    if HasSignificantChanges(a, b) {
      var i :| 0 <= i < 5 && Trim(ComparedFields(a)[i]) != Trim(ComparedFields(b)[i]);
      assert Trim(ComparedFields(a2)[i]) != Trim(ComparedFields(b)[i]);
    }
  }

  // ---- One item ----

  /** How one item ended. */
  datatype Outcome = Created | Updated | Untouched | Rejected(detail: RunRecord.FailedJob)

  /** The store after one item, and how the item ended. */
  datatype Step = Step(store: Store, outcome: Outcome)

  /** `job.jobId || 'unknown'`. */
  function DetailId(jobId: string): (r: string)
    ensures r != ""
    ensures jobId != "" ==> r == jobId
  {
    if jobId == "" then "unknown" else jobId
  }

  /** The reason recorded for an item that fails validation. */
  function ValidationReason(errors: seq<string>): string {
    "Validation failed: " + Join(errors, ", ")
  }

  /** The item passes validation: it neither throws nor reports an error. */
  predicate Accepted(job: Job) {
    ValidateJob(job).Success? && ValidateJob(job).value.isValid
  }

  /** The message an item that does not pass validation is rejected with:
      what validation threw, or the joined validation errors. */
  function RejectionReason(job: Job): string
    requires !Accepted(job)
  {
    match ValidateJob(job)
    case Failure(e) => e
    case Success(v) => ValidationReason(v.errors)
  }

  /** One item of `processBatch`: an invalid item is rejected with its
      validation errors; a store error rejects it with the store's message;
      an existing posting is replaced when it changed significantly and left
      alone otherwise; a new jobId is created. Rejections never touch the
      store, and no other jobId is ever touched. */
  function ImportItem(store: Store, faults: Faults, job: Job): (r: Step)
    ensures r.outcome.Rejected? <==> !Accepted(job) || job.jobId in faults
    ensures r.outcome.Rejected? ==> r.store == store
    ensures r.outcome.Rejected? ==> r.outcome.detail.jobId == DetailId(job.jobId) && r.outcome.detail.data == job
    ensures ValidateJob(job).Failure? ==> r.outcome.detail.reason == ValidateJob(job).error
    ensures ValidateJob(job).Success? && !ValidateJob(job).value.isValid ==>
              r.outcome.detail.reason == ValidationReason(ValidateJob(job).value.errors)
    ensures Accepted(job) && job.jobId in faults ==> r.outcome.detail.reason == faults[job.jobId]
    ensures r.outcome == Created <==>
              Accepted(job) && job.jobId !in faults && job.jobId !in store
    ensures r.outcome == Updated <==>
              Accepted(job) && job.jobId !in faults && job.jobId in store
              && HasSignificantChanges(store[job.jobId], job)
    ensures r.outcome == Created || r.outcome == Updated ==> r.store == store[job.jobId := job]
    ensures r.outcome == Untouched ==> r.store == store
    ensures !r.outcome.Rejected? ==> job.jobId in r.store && !HasSignificantChanges(r.store[job.jobId], job)
    ensures r.store == store || r.store == store[job.jobId := job]
  {
    SignificantChangesIrreflexiveSymmetric(job, job);
    if !Accepted(job) then
      Step(store, Rejected(RunRecord.FailedJob(DetailId(job.jobId), RejectionReason(job), job)))
    else if job.jobId in faults then
      Step(store, Rejected(RunRecord.FailedJob(DetailId(job.jobId), faults[job.jobId], job)))
    else if job.jobId in store then
      if HasSignificantChanges(store[job.jobId], job) then Step(store[job.jobId := job], Updated)
      else Step(store, Untouched)
    else
      Step(store[job.jobId := job], Created)
  }

  /** An item whose title is an object (an element with attributes, such as
      `<title lang="en">`), or whose URL resolves to one, passes the
      transform but is rejected at import with the TypeError that `trim`
      throws, and the store is untouched. */
  lemma NestedTitleOrUrlRejected(m: Fields, source: string, digest: string -> string, store: Store, faults: Faults)
    requires Transformable(Item(m)) && (NestedAt(m, "title") || ResolveUrl(m).Nested?)
    ensures Transform(Item(m), source, digest).Success?
    ensures var r := ImportItem(store, faults, Transform(Item(m), source, digest).value);
            && r.outcome.Rejected? && r.store == store
            && r.outcome.detail.reason == (if NestedAt(m, "title") then TitleTrimError else UrlTrimError)
  {
  }

  // ---- Tallies ----

  /** The counters and failure details of a run of items. */
  datatype Tally = Tally(newJobs: nat, updatedJobs: nat, failedJobs: nat, failedJobsDetails: seq<RunRecord.FailedJob>)
  {
    /** The tally of this run followed by `other`. */
    function Plus(other: Tally): Tally {
      Tally(newJobs + other.newJobs, updatedJobs + other.updatedJobs, failedJobs + other.failedJobs,
            failedJobsDetails + other.failedJobsDetails)
    }

    function Counters(): RunRecord.Counters {
      RunRecord.Counters(newJobs, updatedJobs, failedJobs)
    }
  }

  const NoItems := Tally(0, 0, 0, [])

  /** Tallies add up in any grouping. */
  lemma PlusAssociative(x: Tally, y: Tally, z: Tally)
    ensures x.Plus(y.Plus(z)) == x.Plus(y).Plus(z)
  {
    var d := x.failedJobsDetails + (y.failedJobsDetails + z.failedJobsDetails);
    assert d == x.failedJobsDetails + y.failedJobsDetails + z.failedJobsDetails;
  }

  /** The empty tally adds nothing. */
  lemma PlusNoItems(t: Tally)
    ensures NoItems.Plus(t) == t
  {
    assert [] + t.failedJobsDetails == t.failedJobsDetails;
  }

  /** The tally of a single item. */
  function Count(o: Outcome): (t: Tally)
    ensures t.newJobs + t.updatedJobs + t.failedJobs <= 1
    ensures |t.failedJobsDetails| == t.failedJobs
  {
    match o
    case Created => Tally(1, 0, 0, [])
    case Updated => Tally(0, 1, 0, [])
    case Untouched => NoItems
    case Rejected(d) => Tally(0, 0, 1, [d])
  }

  /** The store and tally after a run of items. */
  datatype BatchResult = BatchResult(store: Store, tally: Tally)

  /** `processBatch`, one item after another: each item ends in exactly one
      outcome, so the counters never exceed the number of items, and every
      failure has its detail. */
  function ProcessBatch(store: Store, faults: Faults, jobs: seq<Job>): (r: BatchResult)
    ensures r.tally.newJobs + r.tally.updatedJobs + r.tally.failedJobs <= |jobs|
    ensures |r.tally.failedJobsDetails| == r.tally.failedJobs
    decreases |jobs|
  {
    if jobs == [] then BatchResult(store, NoItems)
    else
      var step := ImportItem(store, faults, jobs[0]);
      var rest := ProcessBatch(step.store, faults, jobs[1..]);
      BatchResult(rest.store, Count(step.outcome).Plus(rest.tally))
  }

  /** Some item of the list has this jobId. */
  predicate HasId(jobs: seq<Job>, k: string) {
    exists i :: 0 <= i < |jobs| && jobs[i].jobId == k
  }

  /** An id occurs in a non-empty list exactly when it is the first item's
      or occurs in the rest. */
  lemma HasIdCons(jobs: seq<Job>, k: string)
    requires jobs != []
    ensures HasId(jobs, k) <==> jobs[0].jobId == k || HasId(jobs[1..], k)
  {
    if HasId(jobs[1..], k) {
      var i :| 0 <= i < |jobs| - 1 && jobs[1..][i].jobId == k;
      assert jobs[i + 1].jobId == k;
    }
    if HasId(jobs, k) {
      var i :| 0 <= i < |jobs| && jobs[i].jobId == k;
      if i > 0 {
        assert jobs[1..][i - 1].jobId == k;
      }
    }
  }

  /** A batch never removes a posting, and it changes only the postings of
      its own items' jobIds. */
  lemma {:induction false} ProcessBatchFrame(store: Store, faults: Faults, jobs: seq<Job>)
    ensures store.Keys <= ProcessBatch(store, faults, jobs).store.Keys
    ensures forall k :: k in store && !HasId(jobs, k) ==> ProcessBatch(store, faults, jobs).store[k] == store[k]
    ensures forall k :: k in ProcessBatch(store, faults, jobs).store && !HasId(jobs, k) ==> k in store
  {
    forall k {
      ProcessBatchFrameAt(store, faults, jobs, k);
    }
  }

  /** The frame of a batch, one jobId at a time. */
  lemma {:induction false} ProcessBatchFrameAt(store: Store, faults: Faults, jobs: seq<Job>, k: string)
    ensures k in store ==> k in ProcessBatch(store, faults, jobs).store
    ensures !HasId(jobs, k) ==> (k in ProcessBatch(store, faults, jobs).store <==> k in store)
    ensures !HasId(jobs, k) && k in store ==> ProcessBatch(store, faults, jobs).store[k] == store[k]
    decreases |jobs|
  {
    if jobs != [] {
      var step := ImportItem(store, faults, jobs[0]);
      assert ProcessBatch(store, faults, jobs).store == ProcessBatch(step.store, faults, jobs[1..]).store;
      ProcessBatchFrameAt(step.store, faults, jobs[1..], k);
      HasIdCons(jobs, k);
    }
  }

  /** After a batch, every valid item without a store error is stored. */
  lemma {:induction false} ProcessBatchStores(store: Store, faults: Faults, jobs: seq<Job>, i: nat)
    requires i < |jobs| && Accepted(jobs[i]) && jobs[i].jobId !in faults
    ensures jobs[i].jobId in ProcessBatch(store, faults, jobs).store
    decreases |jobs|
  {
    var step := ImportItem(store, faults, jobs[0]);
    if i == 0 {
      ProcessBatchFrame(step.store, faults, jobs[1..]);
    } else {
      assert jobs[1..][i - 1] == jobs[i];
      ProcessBatchStores(step.store, faults, jobs[1..], i - 1);
    }
  }

  /** Running two lists one after the other is running their concatenation:
      the store carries over and the tallies add up (details concatenated). */
  lemma {:induction false} ProcessBatchAppend(store: Store, faults: Faults, a: seq<Job>, b: seq<Job>)
    ensures var ra := ProcessBatch(store, faults, a);
            var rb := ProcessBatch(ra.store, faults, b);
            ProcessBatch(store, faults, a + b) == BatchResult(rb.store, ra.tally.Plus(rb.tally))
    decreases |a|
  {
    if a == [] {
      assert a + b == b;
      PlusNoItems(ProcessBatch(store, faults, b).tally);
    } else {
      var ab := a + b;
      assert ab != [] && ab[0] == a[0] && ab[1..] == a[1..] + b;
      var step := ImportItem(store, faults, a[0]);
      ProcessBatchAppend(step.store, faults, a[1..], b);
      var ra1 := ProcessBatch(step.store, faults, a[1..]);
      var rb := ProcessBatch(ra1.store, faults, b);
      var c := Count(step.outcome);
      ProcessBatchCons(store, faults, ab);
      ProcessBatchCons(store, faults, a);
      PlusAssociative(c, ra1.tally, rb.tally);
    }
  }

  /** One step of `ProcessBatch` on a non-empty list. */
  lemma ProcessBatchCons(store: Store, faults: Faults, jobs: seq<Job>)
    requires jobs != []
    ensures var step := ImportItem(store, faults, jobs[0]);
            var rest := ProcessBatch(step.store, faults, jobs[1..]);
            ProcessBatch(store, faults, jobs) == BatchResult(rest.store, Count(step.outcome).Plus(rest.tally))
  {
  }

  /** The counters of a longer run are at least those of its prefix. */
  lemma CountersGrow(store: Store, faults: Faults, a: seq<Job>, b: seq<Job>)
    ensures var ta := ProcessBatch(store, faults, a).tally;
            var tab := ProcessBatch(store, faults, a + b).tally;
            ta.newJobs <= tab.newJobs && ta.updatedJobs <= tab.updatedJobs && ta.failedJobs <= tab.failedJobs
            && ta.failedJobsDetails <= tab.failedJobsDetails
  {
    ProcessBatchAppend(store, faults, a, b);
  }

  // ---- Re-import ----

  /** No two items share a jobId. */
  predicate DistinctIds(jobs: seq<Job>) {
    forall i, j :: 0 <= i < j < |jobs| ==> jobs[i].jobId != jobs[j].jobId
  }

  /** Every valid item without a store error is stored with no significant
      change against it. */
  predicate Settled(store: Store, faults: Faults, jobs: seq<Job>) {
    forall i :: 0 <= i < |jobs| && Accepted(jobs[i]) && jobs[i].jobId !in faults ==>
      jobs[i].jobId in store && !HasSignificantChanges(store[jobs[i].jobId], jobs[i])
  }

  /** After importing items with distinct jobIds, they are all settled. */
  lemma {:induction false} ImportSettles(store: Store, faults: Faults, jobs: seq<Job>)
    requires DistinctIds(jobs)
    ensures Settled(ProcessBatch(store, faults, jobs).store, faults, jobs)
    decreases |jobs|
  {
    if jobs != [] {
      var step := ImportItem(store, faults, jobs[0]);
      var rest := jobs[1..];
      assert DistinctIds(rest) by {
        forall i, j | 0 <= i < j < |rest| ensures rest[i].jobId != rest[j].jobId {
          assert rest[i] == jobs[i + 1] && rest[j] == jobs[j + 1];
        }
      }
      ImportSettles(step.store, faults, rest);
      ProcessBatchFrame(step.store, faults, rest);
      var r := ProcessBatch(step.store, faults, rest);
      assert r.store == ProcessBatch(store, faults, jobs).store;
      forall i | 0 <= i < |jobs| && Accepted(jobs[i]) && jobs[i].jobId !in faults
        ensures jobs[i].jobId in r.store && !HasSignificantChanges(r.store[jobs[i].jobId], jobs[i])
      {
        if i == 0 {
          assert !HasId(rest, jobs[0].jobId) by {
            forall j | 0 <= j < |rest| ensures rest[j].jobId != jobs[0].jobId {
              assert rest[j] == jobs[j + 1];
            }
          }
        } else {
          assert jobs[i] == rest[i - 1];
        }
      }
    }
  }

  /** Importing settled items creates and updates nothing, and leaves the
      store as it was. */
  lemma {:induction false} SettledImportIsQuiet(store: Store, faults: Faults, jobs: seq<Job>)
    requires Settled(store, faults, jobs)
    ensures ProcessBatch(store, faults, jobs).tally.newJobs == 0
    ensures ProcessBatch(store, faults, jobs).tally.updatedJobs == 0
    ensures ProcessBatch(store, faults, jobs).store == store
    decreases |jobs|
  {
    if jobs != [] {
      var rest := jobs[1..];
      assert Settled(store, faults, rest) by {
        forall i | 0 <= i < |rest| && Accepted(rest[i]) && rest[i].jobId !in faults
          ensures rest[i].jobId in store && !HasSignificantChanges(store[rest[i].jobId], rest[i])
        {
          assert rest[i] == jobs[i + 1];
        }
      }
      assert ImportItem(store, faults, jobs[0]).store == store;
      SettledImportIsQuiet(store, faults, rest);
    }
  }

  /** Importing the same items (distinct jobIds) a second time creates and
      updates nothing. */
  lemma ReimportIsQuiet(store: Store, faults: Faults, jobs: seq<Job>)
    requires DistinctIds(jobs)
    ensures var once := ProcessBatch(store, faults, jobs).store;
            ProcessBatch(once, faults, jobs).tally.newJobs == 0
            && ProcessBatch(once, faults, jobs).tally.updatedJobs == 0
  {
    ImportSettles(store, faults, jobs);
    SettledImportIsQuiet(ProcessBatch(store, faults, jobs).store, faults, jobs);
  }

  // ---- Batches ----

  /** The number of slices of `size` that `n` items make. */
  function NumBatches(n: nat, size: nat): nat
    requires size > 0
  {
    if n == 0 then 0 else if n <= size then 1 else 1 + NumBatches(n - size, size)
  }

  /** It is the ceiling of n / size: the batches hold all items and the last
      one is not empty. */
  lemma {:induction false} NumBatchesIsCeiling(n: nat, size: nat)
    requires size > 0
    ensures n <= NumBatches(n, size) * size
    ensures n > 0 ==> (NumBatches(n, size) - 1) * size < n
    ensures n == 0 <==> NumBatches(n, size) == 0
    decreases n
  {
    if n > size {
      NumBatchesIsCeiling(n - size, size);
      var k := NumBatches(n - size, size);
      assert (k + 1) * size == k * size + size;
    }
  }

  /** The consecutive slices `jobs.slice(i, i + size)` for i = 0, size, 2·size, ...:
      all full but the last, which is not empty. */
  function Batches(jobs: seq<Job>, size: nat): (r: seq<seq<Job>>)
    requires size > 0
    ensures |r| == NumBatches(|jobs|, size)
    ensures forall k :: 0 <= k < |r| ==> 0 < |r[k]| <= size
    ensures forall k :: 0 <= k < |r| - 1 ==> |r[k]| == size
    decreases |jobs|
  {
    if jobs == [] then []
    else if |jobs| <= size then [jobs]
    else [jobs[..size]] + Batches(jobs[size..], size)
  }

  function Flatten(bs: seq<seq<Job>>): seq<Job> {
    if bs == [] then [] else bs[0] + Flatten(bs[1..])
  }

  /** The batches, put back together, are the input: every item is in exactly
      one batch, in order. */
  lemma {:induction false} BatchesPartition(jobs: seq<Job>, size: nat)
    requires size > 0
    ensures Flatten(Batches(jobs, size)) == jobs
    decreases |jobs|
  {
    if jobs != [] && |jobs| > size {
      var bs := Batches(jobs, size);
      assert bs[1..] == Batches(jobs[size..], size);
      BatchesPartition(jobs[size..], size);
      assert jobs[..size] + jobs[size..] == jobs;
    } else if jobs != [] {
      assert Batches(jobs, size) == [jobs];
      assert Flatten([jobs]) == jobs + Flatten([]);
    }
  }

  /** The counters of the first `end` items, as the checkpoint after the
      batch ending there writes them. */
  function PrefixCounters(store: Store, faults: Faults, jobs: seq<Job>, end: nat): RunRecord.Counters
    requires end <= |jobs|
  {
    ProcessBatch(store, faults, jobs[..end]).tally.Counters()
  }

  /** Importing the first `end` items is importing the first `i` and then
      the items from `i` to `end`. */
  lemma PrefixStep(store: Store, faults: Faults, jobs: seq<Job>, i: nat, end: nat)
    requires i <= end <= |jobs|
    ensures ProcessBatch(store, faults, jobs[..end])
            == Then(ProcessBatch(store, faults, jobs[..i]),
                    ProcessBatch(ProcessBatch(store, faults, jobs[..i]).store, faults, jobs[i..end]))
  {
    assert jobs[..i] + jobs[i..end] == jobs[..end];
    ProcessBatchAppend(store, faults, jobs[..i], jobs[i..end]);
  }

  /** Where batch `m` starts: `m` steps of `size` from 0. */
  function BatchStart(m: nat, size: nat): nat {
    if m == 0 then 0 else BatchStart(m - 1, size) + size
  }

  lemma {:induction false} BatchStartIsProduct(m: nat, size: nat)
    ensures BatchStart(m, size) == m * size
  {
    if m > 0 {
      BatchStartIsProduct(m - 1, size);
      assert m * size == (m - 1) * size + size;
    }
  }

  /** Batch `m` is the slice `jobs.slice(m·size, (m+1)·size)` the loop takes
      on its m-th pass. */
  lemma {:induction false} BatchSlice(jobs: seq<Job>, size: nat, m: nat)
    requires size > 0 && m < NumBatches(|jobs|, size)
    ensures BatchStart(m, size) < |jobs|
    ensures jobs[BatchStart(m, size)..Min(BatchStart(m + 1, size), |jobs|)] == Batches(jobs, size)[m]
    decreases m
  {
    if m == 0 {
      assert BatchStart(1, size) == size;
    } else {
      var rest := jobs[size..];
      assert Batches(jobs, size) == [jobs[..size]] + Batches(rest, size);
      BatchSlice(rest, size, m - 1);
      var a := BatchStart(m - 1, size);
      var b := Min(BatchStart(m, size), |rest|);
      assert BatchStart(m, size) == a + size && BatchStart(m + 1, size) == BatchStart(m, size) + size;
      SliceOfSuffix(jobs, size, a, b);
    }
  }

  /** A slice of `jobs[size..]` is the slice of `jobs` shifted by `size`. */
  lemma SliceOfSuffix(jobs: seq<Job>, size: nat, a: nat, b: nat)
    requires size <= |jobs| && a <= b <= |jobs| - size
    ensures jobs[size..][a..b] == jobs[size + a..size + b]
  {
  }

    // ---- The batch loop ----

  /** The loop below is stated for any batch processor; `importJobs` uses
      `processBatch` (see `Importer`). */
  type BatchFn = (Store, seq<Job>) -> BatchResult

  /** A run followed by another: the second's store, the tallies added. */
  function Then(a: BatchResult, b: BatchResult): BatchResult {
    BatchResult(b.store, a.tally.Plus(b.tally))
  }

  /** Processing a prefix of `jobs` from `store` is processing a shorter
      prefix and then the items between, and no items make no changes. */
  predicate PrefixesCompose(proc: BatchFn, store: Store, jobs: seq<Job>) {
    && proc(store, jobs[..0]) == BatchResult(store, NoItems)
    && forall i: nat, e: nat :: i <= e <= |jobs| ==> ComposesAt(proc, store, jobs, i, e)
  }

  /** The first `e` items are the first `i` and then the items from `i` to `e`. */
  predicate ComposesAt(proc: BatchFn, store: Store, jobs: seq<Job>, i: nat, e: nat)
    requires i <= e <= |jobs|
  {
    proc(store, jobs[..e]) == Then(proc(store, jobs[..i]), proc(proc(store, jobs[..i]).store, jobs[i..e]))
  }

  /** `processBatch` for a fixed set of store errors. */
  function Importer(faults: Faults): BatchFn {
    (s: Store, js: seq<Job>) => ProcessBatch(s, faults, js)
  }

  lemma ImporterComposes(store: Store, faults: Faults, jobs: seq<Job>)
    ensures PrefixesCompose(Importer(faults), store, jobs)
  {
    assert jobs[..0] == [];
    forall i: nat, e: nat | i <= e <= |jobs|
      ensures ComposesAt(Importer(faults), store, jobs, i, e)
    {
      PrefixStep(store, faults, jobs, i, e);
    }
  }

  /** The variables of the batch loop: the next batch's start, the store,
      the running tally, the checkpoints written and the run records. */
  datatype Progress = Progress(i: nat, cur: Store, tally: Tally,
                               checkpoints: seq<RunRecord.Counters>, logs: RunRecord.LogStore)

  /** One pass of the loop body: process `jobs.slice(i, i + size)`, add its
      tally, and write the cumulative counters to the run record. */
  function Advance(proc: BatchFn, jobs: seq<Job>, size: nat, logId: nat, p: Progress): Progress {
    var end := Min(p.i + size, |jobs|);
    var br := proc(p.cur, jobs[Min(p.i, |jobs|)..end]);
    var t := p.tally.Plus(br.tally);
    Progress(p.i + size, br.store, t, p.checkpoints + [t.Counters()],
             RunRecord.UpdateImportLog(p.logs, logId, t.Counters()))
  }

  /** The loop variables after `m` passes. */
  function Run(proc: BatchFn, store: Store, jobs: seq<Job>, size: nat,
               logs: RunRecord.LogStore, logId: nat, m: nat): (r: Progress)
    ensures r.i == BatchStart(m, size) && |r.checkpoints| == m
  {
    if m == 0 then Progress(0, store, NoItems, [], logs)
    else Advance(proc, jobs, size, logId, Run(proc, store, jobs, size, logs, logId, m - 1))
  }

  /** The checkpoint after each of the first `m` batches: the counters of
      all items up to the end of that batch. */
  function Checkpoints(proc: BatchFn, store: Store, jobs: seq<Job>, size: nat, m: nat): (r: seq<RunRecord.Counters>)
    ensures |r| == m
  {
    if m == 0 then []
    else Checkpoints(proc, store, jobs, size, m - 1) + [proc(store, jobs[..Min(BatchStart(m, size), |jobs|)]).tally.Counters()]
  }

  /** Checkpoint `k` holds the counters of the items in the first `k + 1` batches. */
  lemma {:induction false} CheckpointsAreCumulative(proc: BatchFn, store: Store, jobs: seq<Job>, size: nat, m: nat)
    ensures forall k :: 0 <= k < m ==>
              Checkpoints(proc, store, jobs, size, m)[k]
              == proc(store, jobs[..Min(BatchStart(k + 1, size), |jobs|)]).tally.Counters()
  {
    if m > 0 {
      CheckpointsAreCumulative(proc, store, jobs, size, m - 1);
    }
  }

  /** While each pass began inside the list, the store and tally after `m`
      passes are those of processing the items before the next start in one go. */
  lemma {:induction false} RunImportsPrefix(proc: BatchFn, store: Store, jobs: seq<Job>, size: nat,
                                            logs: RunRecord.LogStore, logId: nat, m: nat)
    requires PrefixesCompose(proc, store, jobs)
    requires m == 0 || BatchStart(m - 1, size) < |jobs|
    ensures var r := Run(proc, store, jobs, size, logs, logId, m);
            BatchResult(r.cur, r.tally) == proc(store, jobs[..Min(r.i, |jobs|)])
  {
    if m > 0 {
      if m - 1 > 0 {
        assert BatchStart(m - 2, size) <= BatchStart(m - 1, size);
      }
      RunImportsPrefix(proc, store, jobs, size, logs, logId, m - 1);
      var p := Run(proc, store, jobs, size, logs, logId, m - 1);
      var end := Min(p.i + size, |jobs|);
      assert p.i < |jobs| && Min(p.i, |jobs|) == p.i;
      assert ComposesAt(proc, store, jobs, p.i, end);
      assert Run(proc, store, jobs, size, logs, logId, m) == Advance(proc, jobs, size, logId, p);
      AdvanceProcesses(proc, jobs, size, logId, p);
    }
  }

  /** A pass processes the items from its start to the next start (both
      capped at the list's end) and adds their tally. */
  lemma AdvanceProcesses(proc: BatchFn, jobs: seq<Job>, size: nat, logId: nat, p: Progress)
    ensures var br := proc(p.cur, jobs[Min(p.i, |jobs|)..Min(p.i + size, |jobs|)]);
            var q := Advance(proc, jobs, size, logId, p);
            q.i == p.i + size && q.cur == br.store && q.tally == p.tally.Plus(br.tally)
  {
  }

  /** ... and the checkpoints are the cumulative counters after each batch. */
  lemma {:induction false} RunCheckpoints(proc: BatchFn, store: Store, jobs: seq<Job>, size: nat,
                                          logs: RunRecord.LogStore, logId: nat, m: nat)
    requires PrefixesCompose(proc, store, jobs)
    requires m == 0 || BatchStart(m - 1, size) < |jobs|
    ensures Run(proc, store, jobs, size, logs, logId, m).checkpoints == Checkpoints(proc, store, jobs, size, m)
  {
    if m > 0 {
      if m - 1 > 0 {
        assert BatchStart(m - 2, size) <= BatchStart(m - 1, size);
      }
      RunCheckpoints(proc, store, jobs, size, logs, logId, m - 1);
      RunImportsPrefix(proc, store, jobs, size, logs, logId, m);
    }
  }

  /** The run record after a checkpoint holds that checkpoint's counters,
      whatever the earlier checkpoints wrote. */
  lemma CheckpointWrite(logs: RunRecord.LogStore, logId: nat, cps: seq<RunRecord.Counters>,
                        lg: RunRecord.LogStore, c: RunRecord.Counters)
    requires cps == [] ==> lg == logs
    requires cps != [] ==> lg == RunRecord.UpdateImportLog(logs, logId, cps[|cps| - 1])
    ensures RunRecord.UpdateImportLog(lg, logId, c) == RunRecord.UpdateImportLog(logs, logId, c)
  {
    if cps != [] {
      RunRecord.UpdateOverwrites(logs, logId, cps[|cps| - 1], c);
    }
  }

  /** The run record after `m` passes holds the last checkpoint's counters. */
  lemma {:induction false} RunLogs(proc: BatchFn, store: Store, jobs: seq<Job>, size: nat,
                                   logs: RunRecord.LogStore, logId: nat, m: nat)
    ensures var r := Run(proc, store, jobs, size, logs, logId, m);
            && (r.checkpoints == [] ==> r.logs == logs)
            && (r.checkpoints != [] ==> r.logs == RunRecord.UpdateImportLog(logs, logId, r.checkpoints[|r.checkpoints| - 1]))
  {
    if m > 0 {
      RunLogs(proc, store, jobs, size, logs, logId, m - 1);
      var p := Run(proc, store, jobs, size, logs, logId, m - 1);
      assert Run(proc, store, jobs, size, logs, logId, m) == Advance(proc, jobs, size, logId, p);
      AdvanceRecords(proc, jobs, size, logId, p);
      var q := Advance(proc, jobs, size, logId, p);
      var c := q.tally.Counters();
      assert q.checkpoints[|q.checkpoints| - 1] == c;
      CheckpointWrite(logs, logId, p.checkpoints, p.logs, c);
      assert q.logs == RunRecord.UpdateImportLog(logs, logId, c);
    }
  }

  /** A pass appends its cumulative counters to the checkpoints and writes
      them to the run record. */
  lemma AdvanceRecords(proc: BatchFn, jobs: seq<Job>, size: nat, logId: nat, p: Progress)
    ensures var q := Advance(proc, jobs, size, logId, p);
            && q.checkpoints == p.checkpoints + [q.tally.Counters()]
            && q.logs == RunRecord.UpdateImportLog(p.logs, logId, q.tally.Counters())
  {
  }

  /** What `importJobs` returns, with the store, run records and checkpoints
      it leaves behind. */
  datatype ImportStats = ImportStats(
    totalFetched: nat,
    totalImported: nat,
    newJobs: nat,
    updatedJobs: nat,
    failedJobs: nat,
    failedJobsDetails: seq<RunRecord.FailedJob>)

  datatype ImportRun = ImportRun(stats: ImportStats, store: Store, logs: RunRecord.LogStore,
                                 checkpoints: seq<RunRecord.Counters>)

  /** `parseInt(process.env.BATCH_SIZE) || 100` as the code writes it: an
      absent or unparsable setting (NaN) and 0 give 100; any other parsed
      value, a negative one included, is used as it is. */
  function BatchSizeAsWritten(parsed: Option<int>): int {
    if parsed.None? || parsed.value == 0 then DefaultBatchSize else parsed.value
  }

  /** The loop index `i` after `k` passes of `i += step`. */
  function LoopIndex(k: nat, step: int): int {
    if k == 0 then 0 else LoopIndex(k - 1, step) + step
  }

  lemma {:induction false} LoopIndexNeverRises(k: nat, step: int)
    requires step <= 0
    ensures LoopIndex(k, step) <= 0
    ensures k >= 1 ==> LoopIndex(k, step) <= step
  {
    if k > 1 {
      LoopIndexNeverRises(k - 1, step);
    }
  }

  /** With a negative setting the loop `for (i = 0; i < jobs.length; i +=
      batchSize)` never ends on a non-empty list: after any number of passes
      the index is still below the length. */
  lemma NegativeBatchSizeNeverEnds(parsed: Option<int>, n: nat, k: nat)
    requires parsed.Some? && parsed.value < 0 && n > 0
    ensures BatchSizeAsWritten(parsed) < 0
    ensures LoopIndex(k, BatchSizeAsWritten(parsed)) < n
  {
    LoopIndexNeverRises(k, BatchSizeAsWritten(parsed));
  }

  /** An index of `Array.prototype.slice` on a list of `n` items: a negative
      index counts back from the end; both ends are clamped to `0..n`. */
  function SliceIndex(i: int, n: nat): (r: nat)
    ensures r <= n
    ensures 0 <= i <= n ==> r == i
    ensures i < 0 ==> r == Numbers.Max(0, n + i)
  {
    if i < 0 then (if n + i < 0 then 0 else n + i) else if i > n then n else i
  }

  /** `jobs.slice(start, end)`. */
  function JsSlice(jobs: seq<Job>, start: int, end: int): (r: seq<Job>)
    ensures |r| <= |jobs|
  {
    var s, e := SliceIndex(start, |jobs|), SliceIndex(end, |jobs|);
    if s < e then jobs[s..e] else []
  }

  /** For a positive batch size, the slice the code takes is the one a pass
      of `Advance` processes. */
  lemma SliceOfPass(jobs: seq<Job>, i: nat, size: nat)
    requires size > 0
    ensures JsSlice(jobs, i, i + size) == jobs[Min(i, |jobs|)..Min(i + size, |jobs|)]
  {
  }

  /** How the import loop with the batch size as the code computes it ends:
      it finishes with a run, or, with a step that is not positive on a
      non-empty list, it spins for ever in the state reached after its first
      pass. */
  datatype LoopEnd = Finished(run: ImportRun) | Spins(store: Store, logs: RunRecord.LogStore)

  /** `importJobs` with any batch size the code can compute. A positive size
      is the batch loop above. Otherwise the loop body never runs on an empty
      list, and on a non-empty one the first pass imports
      `jobs.slice(0, size)` and writes its checkpoint, after which the index
      never reaches the length (see `NegativeBatchSizeNeverEnds`) and every
      later pass finds an empty slice (see `SpinningLoopStaysPut`). */
  function ImportJobsAsWritten(jobs: seq<Job>, size: int, store: Store, faults: Faults,
                               logs: RunRecord.LogStore, logId: nat): (r: LoopEnd)
    ensures r.Spins? <==> size <= 0 && jobs != []
    ensures size > 0 ==> r == Finished(ImportJobs(jobs, size, store, faults, logs, logId))
    ensures r.Finished? && jobs == [] ==>
              r.run.store == store && r.run.logs == logs && r.run.checkpoints == []
              && r.run.stats == ImportStats(0, 0, 0, 0, 0, [])
    ensures r.Spins? ==> r.logs.records.Keys == logs.records.Keys
  {
    if size > 0 then Finished(ImportJobs(jobs, size, store, faults, logs, logId))
    else if jobs == [] then Finished(ImportRun(ImportStats(0, 0, 0, 0, 0, []), store, logs, []))
    else
      var first := ProcessBatch(store, faults, JsSlice(jobs, 0, size));
      Spins(first.store, RunRecord.UpdateImportLog(logs, logId, first.tally.Counters()))
  }

  /** When the loop as written ends (a positive size, or nothing to import),
      the result is that of importing the items one by one, and the run
      records keep their ids and everything but their counters. */
  lemma ImportJobsAsWrittenEnds(jobs: seq<Job>, size: int, store: Store, faults: Faults,
                                logs: RunRecord.LogStore, logId: nat, k: nat)
    requires size > 0 || jobs == []
    requires k in logs.records
    ensures var r := ImportJobsAsWritten(jobs, size, store, faults, logs, logId);
            var all := ProcessBatch(store, faults, jobs);
            && r.Finished?
            && r.run.store == all.store
            && r.run.stats == ImportStats(|jobs|, all.tally.newJobs + all.tally.updatedJobs, all.tally.newJobs,
                                          all.tally.updatedJobs, all.tally.failedJobs, all.tally.failedJobsDetails)
            && r.run.logs.records.Keys == logs.records.Keys && r.run.logs.fault == logs.fault
            && r.run.logs.records[k].fileName == logs.records[k].fileName
            && r.run.logs.records[k].status == logs.records[k].status
            && r.run.logs.records[k].startTime == logs.records[k].startTime
  {
    if size > 0 {
      ImportJobsIsPerItem(jobs, size, store, faults, logs, logId);
      ImportJobsKeepsRecords(jobs, size, store, faults, logs, logId);
    }
  }

  /** On an empty list the loop ends before its first pass, whatever the
      size: the result is that of the batch loop with any positive size. */
  lemma EmptyImportAnySize(size: int, batchSize: nat, store: Store, faults: Faults,
                           logs: RunRecord.LogStore, logId: nat)
    requires batchSize > 0
    ensures ImportJobsAsWritten([], size, store, faults, logs, logId)
            == Finished(ImportJobs([], batchSize, store, faults, logs, logId))
  {
  }

  /** With a step that is not positive, every pass after the first slices
      nothing. */
  lemma LaterSlicesEmpty(jobs: seq<Job>, size: int, k: nat)
    requires size <= 0 && k >= 1
    ensures JsSlice(jobs, LoopIndex(k, size), LoopIndex(k, size) + size) == []
  {
    LoopIndexNeverRises(k, size);
  }

  /** ... so a spinning loop stays in the state of its first pass: a later
      pass changes neither the store nor the running tally, and its
      checkpoint rewrites the counters already written. */
  lemma SpinningLoopStaysPut(jobs: seq<Job>, size: int, store: Store, faults: Faults,
                             logs: RunRecord.LogStore, logId: nat, k: nat)
    requires size <= 0 && jobs != [] && k >= 1
    ensures var r := ImportJobsAsWritten(jobs, size, store, faults, logs, logId);
            var t := ProcessBatch(store, faults, JsSlice(jobs, 0, size)).tally;
            var later := ProcessBatch(r.store, faults, JsSlice(jobs, LoopIndex(k, size), LoopIndex(k, size) + size));
            && later.store == r.store && t.Plus(later.tally) == t
            && RunRecord.UpdateImportLog(r.logs, logId, t.Plus(later.tally).Counters()) == r.logs
  {
    var t := ProcessBatch(store, faults, JsSlice(jobs, 0, size)).tally;
    SpinState(jobs, size, store, faults, logs, logId);
    var i := LoopIndex(k, size);
    LaterSlicesEmpty(jobs, size, k);
    PlusNoItemsRight(t);
    RunRecord.UpdateOverwrites(logs, logId, t.Counters(), t.Counters());
  }

  /** The state a spinning loop keeps: the first pass's store, and its
      checkpoint written to the run record. */
  lemma SpinState(jobs: seq<Job>, size: int, store: Store, faults: Faults, logs: RunRecord.LogStore, logId: nat)
    requires size <= 0 && jobs != []
    ensures var first := ProcessBatch(store, faults, JsSlice(jobs, 0, size));
            ImportJobsAsWritten(jobs, size, store, faults, logs, logId)
            == Spins(first.store, RunRecord.UpdateImportLog(logs, logId, first.tally.Counters()))
  {
  }

  /** Adding the empty tally changes nothing. */
  lemma PlusNoItemsRight(t: Tally)
    ensures t.Plus(NoItems) == t
  {
    assert t.failedJobsDetails + [] == t.failedJobsDetails;
  }

  /** The batch size the import uses: a positive parsed setting, else 100.
      It is always positive, so the loop ends (see `ImportJobsStops`). */
  function BatchSize(parsed: Option<int>): (r: nat)
    ensures r > 0
    ensures parsed.Some? && parsed.value > 0 ==> r == parsed.value
    ensures r == BatchSizeAsWritten(parsed) || BatchSizeAsWritten(parsed) < 0
  {
    if parsed.Some? && parsed.value > 0 then parsed.value else DefaultBatchSize
  }

  /** `importJobs(jobs, source, importLogId)`: the `for` loop over
      consecutive batches of `batchSize`, run until the next start is past
      the end. */
  function ImportJobs(jobs: seq<Job>, batchSize: nat, store: Store, faults: Faults,
                      logs: RunRecord.LogStore, logId: nat): (r: ImportRun)
    requires batchSize > 0
    ensures |r.checkpoints| == NumBatches(|jobs|, batchSize)
    ensures r.stats.totalFetched == |jobs|
    ensures r.stats.totalImported == r.stats.newJobs + r.stats.updatedJobs
  {
    var r := Run(Importer(faults), store, jobs, batchSize, logs, logId, NumBatches(|jobs|, batchSize));
    ImportRun(ImportStats(|jobs|, r.tally.newJobs + r.tally.updatedJobs, r.tally.newJobs, r.tally.updatedJobs,
                          r.tally.failedJobs, r.tally.failedJobsDetails),
              r.cur, r.logs, r.checkpoints)
  }

  lemma ImporterIsProcessBatch(faults: Faults, s: Store, js: seq<Job>)
    ensures Importer(faults)(s, js) == ProcessBatch(s, faults, js)
  {
  }

  /** The loop makes exactly the number of batches: each pass starts inside
      the list and the last one reaches its end. */
  lemma ImportJobsStops(n: nat, batchSize: nat)
    requires batchSize > 0
    ensures var m := NumBatches(n, batchSize);
            BatchStart(m, batchSize) >= n && (m == 0 || BatchStart(m - 1, batchSize) < n)
  {
    var m := NumBatches(n, batchSize);
    NumBatchesIsCeiling(n, batchSize);
    BatchStartIsProduct(m, batchSize);
    if m > 0 {
      BatchStartIsProduct(m - 1, batchSize);
    }
  }

  /** After the last pass, for a processor that composes over prefixes: the
      store and tally are those of processing all items in one go, and
      checkpoint `k` holds the counters of the first `k + 1` batches. */
  lemma RunToEnd(proc: BatchFn, store: Store, jobs: seq<Job>, size: nat,
                 logs: RunRecord.LogStore, logId: nat)
    requires size > 0 && PrefixesCompose(proc, store, jobs)
    ensures var r := Run(proc, store, jobs, size, logs, logId, NumBatches(|jobs|, size));
            && BatchResult(r.cur, r.tally) == proc(store, jobs)
            && (forall k :: 0 <= k < |r.checkpoints| ==>
                  r.checkpoints[k] == proc(store, jobs[..Min(BatchStart(k + 1, size), |jobs|)]).tally.Counters())
            && (r.checkpoints == [] ==> r.logs == logs)
            && (r.checkpoints != [] ==> r.logs == RunRecord.UpdateImportLog(logs, logId, r.checkpoints[|r.checkpoints| - 1]))
  {
    var m := NumBatches(|jobs|, size);
    ImportJobsStops(|jobs|, size);
    RunImportsPrefix(proc, store, jobs, size, logs, logId, m);
    RunCheckpoints(proc, store, jobs, size, logs, logId, m);
    RunLogs(proc, store, jobs, size, logs, logId, m);
    CheckpointsAreCumulative(proc, store, jobs, size, m);
    assert jobs[..|jobs|] == jobs;
  }

  /** The result is that of importing the items one by one, so it does not
      depend on the batch size. */
  lemma ImportJobsIsPerItem(jobs: seq<Job>, batchSize: nat, store: Store, faults: Faults,
                            logs: RunRecord.LogStore, logId: nat)
    requires batchSize > 0
    ensures var res := ImportJobs(jobs, batchSize, store, faults, logs, logId);
            var all := ProcessBatch(store, faults, jobs);
            && res.store == all.store && res.stats.newJobs == all.tally.newJobs && res.stats.updatedJobs == all.tally.updatedJobs
            && res.stats.failedJobs == all.tally.failedJobs && res.stats.failedJobsDetails == all.tally.failedJobsDetails
            && res.stats.totalFetched == |jobs| && res.stats.totalImported == res.stats.newJobs + res.stats.updatedJobs
  {
    ImporterComposes(store, faults, jobs);
    RunToEnd(Importer(faults), store, jobs, batchSize, logs, logId);
    ImporterIsProcessBatch(faults, store, jobs);
  }

  /** One checkpoint per batch writes the cumulative counters of the items
      done so far, and the run record ends with the last of them. */
  lemma ImportJobsCheckpoints(jobs: seq<Job>, batchSize: nat, store: Store, faults: Faults,
                              logs: RunRecord.LogStore, logId: nat)
    requires batchSize > 0
    ensures var res := ImportJobs(jobs, batchSize, store, faults, logs, logId);
            && |res.checkpoints| == NumBatches(|jobs|, batchSize)
            && (forall k :: 0 <= k < |res.checkpoints| ==>
                  res.checkpoints[k] == PrefixCounters(store, faults, jobs, Min(BatchStart(k + 1, batchSize), |jobs|)))
            && (res.checkpoints == [] ==> res.logs == logs)
            && (res.checkpoints != [] ==> res.logs == RunRecord.UpdateImportLog(logs, logId, res.checkpoints[|res.checkpoints| - 1]))
  {
    ImporterComposes(store, faults, jobs);
    RunToEnd(Importer(faults), store, jobs, batchSize, logs, logId);
    var cps := ImportJobs(jobs, batchSize, store, faults, logs, logId).checkpoints;
    forall k | 0 <= k < |cps|
      ensures cps[k] == PrefixCounters(store, faults, jobs, Min(BatchStart(k + 1, batchSize), |jobs|))
    {
      ImporterIsProcessBatch(faults, store, jobs[..Min(BatchStart(k + 1, batchSize), |jobs|)]);
    }
  }

  /** The checkpoints only change counters: the run records keep their ids,
      and each record keeps everything but its three counters. */
  lemma ImportJobsKeepsRecords(jobs: seq<Job>, batchSize: nat, store: Store, faults: Faults,
                               logs: RunRecord.LogStore, logId: nat)
    requires batchSize > 0
    ensures var res := ImportJobs(jobs, batchSize, store, faults, logs, logId);
            && res.logs.records.Keys == logs.records.Keys && res.logs.fault == logs.fault
            && forall k :: k in logs.records ==>
                 res.logs.records[k].fileName == logs.records[k].fileName
                 && res.logs.records[k].status == logs.records[k].status
                 && res.logs.records[k].startTime == logs.records[k].startTime
                 && res.logs.records[k].duration == logs.records[k].duration
  {
    ImportJobsCheckpoints(jobs, batchSize, store, faults, logs, logId);
  }

  /** The same, for one record. */
  lemma ImportJobsKeepsRecord(jobs: seq<Job>, batchSize: nat, store: Store, faults: Faults,
                              logs: RunRecord.LogStore, logId: nat, k: nat)
    requires batchSize > 0 && k in logs.records
    ensures var res := ImportJobs(jobs, batchSize, store, faults, logs, logId);
            && k in res.logs.records && res.logs.fault == logs.fault
            && res.logs.records[k].fileName == logs.records[k].fileName
            && res.logs.records[k].startTime == logs.records[k].startTime
  {
    ImportJobsKeepsRecords(jobs, batchSize, store, faults, logs, logId);
  }

  /** Successive checkpoints never decrease. */
  lemma CheckpointsGrow(store: Store, faults: Faults, jobs: seq<Job>, e1: nat, e2: nat)
    requires e1 <= e2 <= |jobs|
    ensures var c1 := PrefixCounters(store, faults, jobs, e1);
            var c2 := PrefixCounters(store, faults, jobs, e2);
            c1.newJobs <= c2.newJobs && c1.updatedJobs <= c2.updatedJobs && c1.failedJobs <= c2.failedJobs
  {
    assert jobs[..e2] == jobs[..e1] + jobs[e1..e2];
    CountersGrow(store, faults, jobs[..e1], jobs[e1..e2]);
  }
}
