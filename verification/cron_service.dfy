/** The hourly sweep that queues one import task per active feed: the
    overlap guard, the seed-if-empty-then-read-again policy, the idempotent
    seeding of the default feeds, and start/stop of the schedule. The feed
    collection is a sequence in storage order with unique URLs; the queue is
    the sequence of URLs handed to it. Store and queue errors are parameters. */
module CronService {
  import opened Wrappers
  import opened Seqs

  /** The schedule used when the environment names none (every hour). */
  const DefaultSchedule := "0 * * * *"

  /** `lastFetchStatus` as the feed schema allows it. */
  datatype FetchStatus = Succeeded | Failed | Pending

  /** A stored feed (timestamps and `lastError`, which no step here writes,
      are left out). */
  datatype Feed = Feed(
    url: string,
    name: string,
    category: Option<string>,
    jobType: Option<string>,
    region: Option<string>,
    isActive: bool,
    lastFetchedAt: Option<int>,
    lastFetchStatus: Option<FetchStatus>)

  /** One entry of the built-in feed list; its fields are what seeding sets. */
  datatype FeedSeed = FeedSeed(
    url: string,
    name: string,
    category: string,
    jobType: Option<string>,
    region: Option<string>)

  /** The Jobicy feed every built-in URL starts from. */
  const JobicyFeed := "https://jobicy.com/?feed=job_feed"

  /** The built-in feeds, in the order they are seeded (the disabled
      HigherEdJobs entry is commented out in the code and is not here). */
  const DefaultFeeds: seq<FeedSeed> := [
    FeedSeed(JobicyFeed, "Jobicy - All Jobs", "all", None, None),
    FeedSeed(JobicyFeed + "&job_categories=smm&job_types=full-time",
             "Jobicy - Social Media Marketing", "smm", Some("full-time"), None),
    FeedSeed(JobicyFeed + "&job_categories=seller&job_types=full-time&search_region=france",
             "Jobicy - Seller (France)", "seller", Some("full-time"), Some("france")),
    FeedSeed(JobicyFeed + "&job_categories=design-multimedia",
             "Jobicy - Design & Multimedia", "design-multimedia", None, None),
    FeedSeed(JobicyFeed + "&job_categories=data-science",
             "Jobicy - Data Science", "data-science", None, None),
    FeedSeed(JobicyFeed + "&job_categories=copywriting",
             "Jobicy - Copywriting", "copywriting", None, None),
    FeedSeed(JobicyFeed + "&job_categories=business",
             "Jobicy - Business", "business", None, None),
    FeedSeed(JobicyFeed + "&job_categories=management",
             "Jobicy - Management", "management", None, None)
  ]

  // ---- Feed collections ----

  /** The URLs of stored feeds, in storage order. */
  function Urls(feeds: seq<Feed>): (r: seq<string>)
    ensures |r| == |feeds|
    ensures forall i :: 0 <= i < |r| ==> r[i] == feeds[i].url
  {
    if feeds == [] then [] else [feeds[0].url] + Urls(feeds[1..])
  }

  /** The URLs of feed definitions, in order. A definition (`FeedSeed`) is
      not yet a stored document (`Feed` adds the active flag and fetch status), so
      the two sequences get one projection each. */
  function SeedUrls(seeds: seq<FeedSeed>): (r: seq<string>)
    ensures |r| == |seeds|
    ensures forall i :: 0 <= i < |r| ==> r[i] == seeds[i].url
  {
    if seeds == [] then [] else [seeds[0].url] + SeedUrls(seeds[1..])
  }

  predicate Distinct(s: seq<string>) {
    forall i, j :: 0 <= i < j < |s| ==> s[i] != s[j]
  }

  /** The unique index on `url`: no two stored feeds share one. */
  predicate DistinctUrls(feeds: seq<Feed>) {
    Distinct(Urls(feeds))
  }

  /** `JobFeed.find({ isActive: true })`: the active feeds, in storage order. */
  function ActiveFeeds(feeds: seq<Feed>): (r: seq<Feed>)
    ensures |r| <= |feeds|
    ensures forall f :: f in r <==> f in feeds && f.isActive
  {
    if feeds == [] then []
    else (if feeds[0].isActive then [feeds[0]] else []) + ActiveFeeds(feeds[1..])
  }

  // ---- Seeding ----

  /** `$set: feed` on an existing document: the seed's fields overwrite, a
      field the seed lacks is left as it was, and everything else (the
      active flag, the fetch status) is untouched. */
  function SetSeed(f: Feed, s: FeedSeed): Feed {
    f.(url := s.url, name := s.name, category := Some(s.category),
       jobType := if s.jobType.Some? then s.jobType else f.jobType,
       region := if s.region.Some? then s.region else f.region)
  }

  /** The document an upsert inserts: the seed's fields plus the schema's
      defaults (active, never fetched). */
  function Inserted(s: FeedSeed): Feed {
    Feed(s.url, s.name, Some(s.category), s.jobType, s.region, true, None, None)
  }

  /** `findOneAndUpdate({ url }, { $set: feed }, { upsert: true })`: update
      the first feed with the seed's URL, or append a new one. */
  function Upsert(feeds: seq<Feed>, s: FeedSeed): (r: seq<Feed>)
    ensures Urls(r) == if s.url in Urls(feeds) then Urls(feeds) else Urls(feeds) + [s.url]
  {
    if feeds == [] then [Inserted(s)]
    else if feeds[0].url == s.url then [SetSeed(feeds[0], s)] + feeds[1..]
    else [feeds[0]] + Upsert(feeds[1..], s)
  }

  /** With unique URLs, the feed holding the seed's URL takes the seed's
      fields, every other feed is unchanged, and a new feed is appended
      exactly when the URL was not stored; URLs stay unique. */
  lemma UpsertSpec(feeds: seq<Feed>, s: FeedSeed)
    requires DistinctUrls(feeds)
    ensures var r := Upsert(feeds, s);
            && DistinctUrls(r)
            && (forall i :: 0 <= i < |feeds| ==>
                  r[i] == if feeds[i].url == s.url then SetSeed(feeds[i], s) else feeds[i])
            && (s.url !in Urls(feeds) ==> r == feeds + [Inserted(s)])
            && (s.url in Urls(feeds) ==> |r| == |feeds|)
  {
    UpsertAt(feeds, s);
    if s.url !in Urls(feeds) {
      UpsertAppends(feeds, s);
    }
  }

  /** Upsert rewrites the feeds with the seed's URL and no others. */
  lemma {:induction false} UpsertAt(feeds: seq<Feed>, s: FeedSeed)
    requires DistinctUrls(feeds)
    ensures forall i :: 0 <= i < |feeds| ==>
              Upsert(feeds, s)[i] == if feeds[i].url == s.url then SetSeed(feeds[i], s) else feeds[i]
  {
    if feeds != [] {
      var rest := feeds[1..];
      assert DistinctUrls(rest) by {
        assert forall i :: 0 <= i < |rest| ==> Urls(rest)[i] == Urls(feeds)[i + 1];
      }
      UpsertAt(rest, s);
      if feeds[0].url == s.url {
        assert forall i :: 0 < i < |feeds| ==> feeds[i].url != s.url by {
          assert forall i :: 0 < i < |feeds| ==> Urls(feeds)[i] != Urls(feeds)[0];
        }
      }
    }
  }

  /** Applying a seed twice is applying it once. */
  lemma SetSeedIdempotent(f: Feed, s: FeedSeed)
    ensures SetSeed(SetSeed(f, s), s) == SetSeed(f, s)
  {
  }

  /** The upserts of `initializeJobFeeds`, one after another. */
  function SeedAll(feeds: seq<Feed>, seeds: seq<FeedSeed>): (r: seq<Feed>)
    decreases |seeds|
  {
    if seeds == [] then feeds else SeedAll(Upsert(feeds, seeds[0]), seeds[1..])
  }

  /** `initializeJobFeeds`: upsert the built-in feeds in order. When the
      upsert at index `failAt` throws, the ones before it have been applied
      and the error is logged and swallowed: the result is always a feed
      collection, never an error. */
  function InitializeJobFeeds(feeds: seq<Feed>, failAt: Option<nat>): (r: seq<Feed>)
    ensures DistinctUrls(feeds) ==> DistinctUrls(r)
    ensures DistinctUrls(feeds) ==>
              forall u :: u in Urls(r) <==> u in Urls(feeds) || u in SeedUrls(SeedPrefix(DefaultFeeds, failAt))
  {
    var seeds := SeedPrefix(DefaultFeeds, failAt);
    if DistinctUrls(feeds) then
      SeedAllUrls(feeds, seeds);
      SeedAll(feeds, seeds)
    else
      SeedAll(feeds, seeds)
  }

  /** The seeds upserted before the one at `failAt` throws. */
  function SeedPrefix(seeds: seq<FeedSeed>, failAt: Option<nat>): seq<FeedSeed> {
    if failAt.Some? && failAt.value < |seeds| then seeds[..failAt.value] else seeds
  }

  /** Seeding keeps URLs unique and stores exactly the old URLs plus the
      seeds' URLs. */
  lemma {:induction false} SeedAllUrls(feeds: seq<Feed>, seeds: seq<FeedSeed>)
    requires DistinctUrls(feeds)
    ensures DistinctUrls(SeedAll(feeds, seeds))
    ensures forall u :: u in Urls(SeedAll(feeds, seeds)) <==> u in Urls(feeds) || u in SeedUrls(seeds)
    decreases |seeds|
  {
    if seeds != [] {
      UpsertSpec(feeds, seeds[0]);
      SeedAllUrls(Upsert(feeds, seeds[0]), seeds[1..]);
      assert forall u :: u in SeedUrls(seeds) <==> u == seeds[0].url || u in SeedUrls(seeds[1..]) by {
        assert SeedUrls(seeds) == [seeds[0].url] + SeedUrls(seeds[1..]);
      }
    }
  }

  /** The seed is stored, and its feed already holds the seed's fields. */
  predicate SeedHeld(feeds: seq<Feed>, s: FeedSeed) {
    && s.url in Urls(feeds)
    && forall i :: 0 <= i < |feeds| && feeds[i].url == s.url ==> SetSeed(feeds[i], s) == feeds[i]
  }

  /** Every seed is held. */
  predicate Seeded(feeds: seq<Feed>, seeds: seq<FeedSeed>) {
    forall j :: 0 <= j < |seeds| ==> SeedHeld(feeds, seeds[j])
  }

  /** Seeds with pairwise different URLs. */
  predicate DistinctSeeds(seeds: seq<FeedSeed>) {
    Distinct(SeedUrls(seeds))
  }

  lemma DistinctSeedsTail(seeds: seq<FeedSeed>)
    requires seeds != [] && DistinctSeeds(seeds)
    ensures DistinctSeeds(seeds[1..]) && seeds[0].url !in SeedUrls(seeds[1..])
  {
    var rest := seeds[1..];
    forall j | 0 <= j < |rest| ensures SeedUrls(rest)[j] == SeedUrls(seeds)[j + 1] { }
    assert seeds[0].url == SeedUrls(seeds)[0];
  }

  /** An upsert holds its own seed. */
  lemma UpsertHolds(feeds: seq<Feed>, s: FeedSeed)
    requires DistinctUrls(feeds)
    ensures SeedHeld(Upsert(feeds, s), s)
  {
    UpsertAt(feeds, s);
    var r := Upsert(feeds, s);
    assert s.url in Urls(r);
    forall i | 0 <= i < |r| && r[i].url == s.url ensures SetSeed(r[i], s) == r[i] {
      if i < |feeds| {
        assert feeds[i].url == s.url && r[i] == SetSeed(feeds[i], s);
        SetSeedIdempotent(feeds[i], s);
      } else {
        assert s.url !in Urls(feeds);
        UpsertAppends(feeds, s);
        assert r[i] == Inserted(s);
      }
    }
  }

  /** An upsert of another URL keeps a held seed held. */
  lemma UpsertKeepsHeld(feeds: seq<Feed>, t: FeedSeed, s: FeedSeed)
    requires DistinctUrls(feeds) && SeedHeld(feeds, s) && t.url != s.url
    ensures SeedHeld(Upsert(feeds, t), s)
  {
    UpsertSpec(feeds, t);
    var r := Upsert(feeds, t);
    forall i | 0 <= i < |r| && r[i].url == s.url ensures SetSeed(r[i], s) == r[i] {
      if i < |feeds| {
        assert r[i] == feeds[i];
      }
    }
  }

  /** Seeding other URLs keeps a held seed held. */
  lemma {:induction false} SeedAllKeepsHeld(feeds: seq<Feed>, seeds: seq<FeedSeed>, s: FeedSeed)
    requires DistinctUrls(feeds) && SeedHeld(feeds, s) && s.url !in SeedUrls(seeds)
    ensures SeedHeld(SeedAll(feeds, seeds), s)
    decreases |seeds|
  {
    if seeds != [] {
      var rest := seeds[1..];
      assert seeds[0].url == SeedUrls(seeds)[0];
      assert s.url !in SeedUrls(rest) by {
        forall j | 0 <= j < |rest| ensures SeedUrls(rest)[j] == SeedUrls(seeds)[j + 1] { }
      }
      UpsertSpec(feeds, seeds[0]);
      UpsertKeepsHeld(feeds, seeds[0], s);
      SeedAllKeepsHeld(Upsert(feeds, seeds[0]), rest, s);
    }
  }

  /** After seeding, every seed (of pairwise different URLs) is stored with
      its fields in place. */
  lemma {:induction false} SeedAllSeeds(feeds: seq<Feed>, seeds: seq<FeedSeed>)
    requires DistinctUrls(feeds) && DistinctSeeds(seeds)
    ensures Seeded(SeedAll(feeds, seeds), seeds)
    decreases |seeds|
  {
    if seeds != [] {
      var s, rest := seeds[0], seeds[1..];
      var next := Upsert(feeds, s);
      UpsertSpec(feeds, s);
      UpsertHolds(feeds, s);
      DistinctSeedsTail(seeds);
      SeedAllSeeds(next, rest);
      SeedAllKeepsHeld(next, rest, s);
      forall j | 0 <= j < |seeds| ensures SeedHeld(SeedAll(feeds, seeds), seeds[j]) {
        if j > 0 {
          assert seeds[j] == rest[j - 1];
        }
      }
    }
  }

  /** Seeding feeds that are already seeded changes nothing. */
  lemma {:induction false} SeededIsFixed(feeds: seq<Feed>, seeds: seq<FeedSeed>)
    requires DistinctUrls(feeds) && Seeded(feeds, seeds)
    ensures SeedAll(feeds, seeds) == feeds
    decreases |seeds|
  {
    if seeds != [] {
      var s := seeds[0];
      assert SeedHeld(feeds, s);
      UpsertSpec(feeds, s);
      assert Upsert(feeds, s) == feeds;
      assert Seeded(feeds, seeds[1..]) by {
        forall j | 0 <= j < |seeds| - 1 ensures seeds[1..][j] == seeds[j + 1] { }
      }
      SeededIsFixed(feeds, seeds[1..]);
    }
  }

  /** Seeding in two runs is seeding once. */
  lemma {:induction false} SeedAllSplit(feeds: seq<Feed>, a: seq<FeedSeed>, b: seq<FeedSeed>)
    ensures SeedAll(feeds, a + b) == SeedAll(SeedAll(feeds, a), b)
    decreases |a|
  {
    if a == [] {
      assert a + b == b;
    } else {
      assert (a + b)[0] == a[0] && (a + b)[1..] == a[1..] + b;
      SeedAllSplit(Upsert(feeds, a[0]), a[1..], b);
    }
  }

  /** Every built-in feed has its own URL. */
  lemma DefaultFeedsDistinct()
    ensures DistinctSeeds(DefaultFeeds)
  {
    DistinctByLength(DefaultFeeds);
  }

  /** Seeds whose URLs differ in length pairwise have different URLs. */
  lemma DistinctByLength(seeds: seq<FeedSeed>)
    requires forall i, j :: 0 <= i < j < |seeds| ==> |seeds[i].url| != |seeds[j].url|
    ensures DistinctSeeds(seeds)
  {
    var u := SeedUrls(seeds);
    forall i, j | 0 <= i < j < |u| ensures u[i] != u[j] {
      assert |u[i]| != |u[j]|;
    }
  }

  /** Seeding twice with seeds of pairwise different URLs, the second time
      completely or up to a failing upsert, is seeding once; URLs stay
      unique. */
  lemma ReseedingIsFixed(feeds: seq<Feed>, seeds: seq<FeedSeed>, failAt: Option<nat>)
    requires DistinctUrls(feeds) && DistinctSeeds(seeds)
    ensures var once := SeedAll(feeds, seeds);
            DistinctUrls(once) && SeedAll(once, SeedPrefix(seeds, failAt)) == once
  {
    SeedAllUrls(feeds, seeds);
    SeedAllSeeds(feeds, seeds);
    var once := SeedAll(feeds, seeds);
    var p := SeedPrefix(seeds, failAt);
    assert Seeded(once, p) by {
      forall j | 0 <= j < |p| ensures p[j] == seeds[j] { }
    }
    SeededIsFixed(once, p);
  }

  /** A seeding cut short by a failing upsert, followed by a complete one,
      is one complete seeding. */
  lemma ResumedSeedingCompletes(feeds: seq<Feed>, seeds: seq<FeedSeed>, k: nat)
    requires DistinctUrls(feeds) && DistinctSeeds(seeds)
    ensures SeedAll(SeedAll(feeds, SeedPrefix(seeds, Some(k))), seeds) == SeedAll(feeds, seeds)
  {
    if k < |seeds| {
      var head, tail := seeds[..k], seeds[k..];
      assert head + tail == seeds;
      assert DistinctSeeds(head) by {
        forall j | 0 <= j < k ensures SeedUrls(head)[j] == SeedUrls(seeds)[j] { }
      }
      var part := SeedAll(feeds, head);
      SeedAllUrls(feeds, head);
      SeedAllSeeds(feeds, head);
      SeededIsFixed(part, head);
      SeedAllSplit(part, head, tail);
      SeedAllSplit(feeds, head, tail);
    } else {
      ReseedingIsFixed(feeds, seeds, None);
    }
  }

  /** `initializeJobFeeds` is idempotent: run again after a complete run,
      whether the second run completes or not, it changes nothing, and at
      most one feed is stored per URL. */
  lemma InitializeIsIdempotent(feeds: seq<Feed>, failAt: Option<nat>)
    requires DistinctUrls(feeds)
    ensures var once := InitializeJobFeeds(feeds, None);
            && DistinctUrls(once)
            && InitializeJobFeeds(once, failAt) == once
  {
    DefaultFeedsDistinct();
    ReseedingIsFixed(feeds, DefaultFeeds, failAt);
  }

  /** A run of `initializeJobFeeds` interrupted by a store error is
      completed by the next run: the result is that of one uninterrupted
      run. */
  lemma InterruptedSeedingCompletes(feeds: seq<Feed>, k: nat)
    requires DistinctUrls(feeds)
    ensures InitializeJobFeeds(InitializeJobFeeds(feeds, Some(k)), None) == InitializeJobFeeds(feeds, None)
  {
    DefaultFeedsDistinct();
    ResumedSeedingCompletes(feeds, DefaultFeeds, k);
  }

  /** The feeds an upsert of each seed inserts, in seed order. */
  function Inserts(seeds: seq<FeedSeed>): (r: seq<Feed>)
    ensures |r| == |seeds|
    ensures forall j :: 0 <= j < |r| ==> r[j] == Inserted(seeds[j])
  {
    if seeds == [] then [] else [Inserted(seeds[0])] + Inserts(seeds[1..])
  }

  /** Seeding a store that holds none of the seeds' URLs appends one new,
      active feed per seed, in seed order. */
  lemma {:induction false} SeedAllFresh(feeds: seq<Feed>, seeds: seq<FeedSeed>)
    requires DistinctSeeds(seeds)
    requires forall j :: 0 <= j < |seeds| ==> seeds[j].url !in Urls(feeds)
    ensures SeedAll(feeds, seeds) == feeds + Inserts(seeds)
    decreases |seeds|
  {
    if seeds != [] {
      var s, rest := seeds[0], seeds[1..];
      UpsertAppends(feeds, s);
      var next := feeds + [Inserted(s)];
      assert Urls(next) == Urls(feeds) + [s.url];
      assert DistinctSeeds(rest) by {
        forall j | 0 <= j < |rest| ensures SeedUrls(rest)[j] == SeedUrls(seeds)[j + 1] { }
      }
      forall j | 0 <= j < |rest| ensures rest[j].url !in Urls(next) {
        assert rest[j].url == SeedUrls(seeds)[j + 1] && s.url == SeedUrls(seeds)[0];
      }
      SeedAllFresh(next, rest);
      assert Inserts(seeds) == [Inserted(s)] + Inserts(rest);
      ConcatAssociative(feeds, [Inserted(s)], Inserts(rest));
    }
  }

  /** An upsert of a URL not stored appends the new feed. */
  lemma {:induction false} UpsertAppends(feeds: seq<Feed>, s: FeedSeed)
    requires s.url !in Urls(feeds)
    ensures Upsert(feeds, s) == feeds + [Inserted(s)]
  {
    if feeds != [] {
      assert Urls(feeds[1..]) == Urls(feeds)[1..];
      UpsertAppends(feeds[1..], s);
    }
  }

  // ---- The scheduler ----

  /** The service's state: its schedule, the overlap guard, and whether a
      schedule has been started (`task` is non-null). */
  datatype Scheduler = Scheduler(schedule: string, isRunning: bool, started: bool)

  /** The constructor: `process.env.CRON_SCHEDULE || '0 * * * *'`, so an
      empty setting counts as none. */
  function NewScheduler(env: Option<string>): (s: Scheduler)
    ensures !s.isRunning && !s.started && s.schedule != ""
    ensures env.Some? && env.value != "" ==> s.schedule == env.value
  {
    Scheduler(if env.Some? && env.value != "" then env.value else DefaultSchedule, false, false)
  }

  /** `start()`: schedule the sweep unless a schedule already exists. */
  function Start(s: Scheduler): (r: Scheduler)
    ensures r.started && r.isRunning == s.isRunning && r.schedule == s.schedule
    ensures s.started ==> r == s
  {
    if s.started then s else s.(started := true)
  }

  /** `stop()`: cancel the schedule if there is one. */
  function Stop(s: Scheduler): (r: Scheduler)
    ensures !r.started && r.isRunning == s.isRunning && r.schedule == s.schedule
    ensures !s.started ==> r == s
  {
    if s.started then s.(started := false) else s
  }

  /** Starting twice is starting once, stopping twice is stopping once, and
      stopping undoes a start made from the stopped state. */
  lemma StartStopLaws(s: Scheduler)
    ensures Start(Start(s)) == Start(s) && Stop(Stop(s)) == Stop(s)
    ensures !s.started ==> Stop(Start(s)) == s
    ensures s.started ==> Start(Stop(s)) == s
  {
  }

  // ---- The sweep ----

  /** Which store and queue calls of one sweep throw: the first read, the
      seeding upsert at an index, the second read, the bulk enqueue, and the
      status updates of the feeds with these URLs. */
  datatype SweepFaults = SweepFaults(
    readFails: bool,
    seedFailsAt: Option<nat>,
    rereadFails: bool,
    enqueueFails: bool,
    markFails: set<string>)

  /** Everything a sweep reads or writes. */
  datatype World = World(sched: Scheduler, feeds: seq<Feed>, queue: seq<string>)

  /** What the sweep logs: skipped by the guard, nothing to queue, queued
      this many feeds, or failed (caught and logged). */
  datatype SweepOutcome = Skipped | NoActiveFeeds | Queued(count: nat) | Errored

  datatype Sweep = Sweep(outcome: SweepOutcome, world: World)

  /** `findByIdAndUpdate(feed._id, { lastFetchedAt: now, lastFetchStatus:
      'pending' })` for each active feed, all issued together; an update
      that fails leaves its feed as it was. */
  function MarkPending(feeds: seq<Feed>, failing: set<string>, now: int): (r: seq<Feed>)
    ensures |r| == |feeds|
  {
    if feeds == [] then []
    else
      var f := feeds[0];
      var g := if f.isActive && f.url !in failing
               then f.(lastFetchedAt := Some(now), lastFetchStatus := Some(Pending)) else f;
      [g] + MarkPending(feeds[1..], failing, now)
  }

  /** Marking touches only the fetch fields of active feeds whose update
      succeeded: those become pending at `now`; every other feed and every
      other field is unchanged. */
  lemma {:induction false} MarkPendingSpec(feeds: seq<Feed>, failing: set<string>, now: int)
    ensures var r := MarkPending(feeds, failing, now);
            && Urls(r) == Urls(feeds) && (ActiveFeeds(r) != [] <==> ActiveFeeds(feeds) != [])
    ensures forall i :: 0 <= i < |feeds| ==>
              var f, g := feeds[i], MarkPending(feeds, failing, now)[i];
              && g.(lastFetchedAt := f.lastFetchedAt, lastFetchStatus := f.lastFetchStatus) == f
              && (f.isActive && f.url !in failing ==>
                    g.lastFetchedAt == Some(now) && g.lastFetchStatus == Some(Pending))
              && (!f.isActive || f.url in failing ==> g == f)
  {
    var r := MarkPending(feeds, failing, now);
    forall i | 0 <= i < |feeds|
      ensures var f, g := feeds[i], r[i];
              && g.(lastFetchedAt := f.lastFetchedAt, lastFetchStatus := f.lastFetchStatus) == f
              && (f.isActive && f.url !in failing ==>
                    g.lastFetchedAt == Some(now) && g.lastFetchStatus == Some(Pending))
              && (!f.isActive || f.url in failing ==> g == f)
    {
      MarkPendingAt(feeds, failing, now, i);
    }
    MarkPendingKeeps(feeds, failing, now);
  }

  /** Marking keeps the URLs and whether any feed is active. */
  lemma {:induction false} MarkPendingKeeps(feeds: seq<Feed>, failing: set<string>, now: int)
    ensures var r := MarkPending(feeds, failing, now);
            Urls(r) == Urls(feeds) && (ActiveFeeds(r) != [] <==> ActiveFeeds(feeds) != [])
  {
    if feeds != [] {
      MarkPendingKeeps(feeds[1..], failing, now);
      var r := MarkPending(feeds, failing, now);
      var rest := MarkPending(feeds[1..], failing, now);
      assert r == [r[0]] + rest;
      assert r[0].isActive == feeds[0].isActive && r[0].url == feeds[0].url;
      assert Urls(r) == [r[0].url] + Urls(rest);
      assert ActiveFeeds(r) == (if r[0].isActive then [r[0]] else []) + ActiveFeeds(rest);
    }
  }

  /** The marking of the feed at one index. */
  lemma {:induction false} MarkPendingAt(feeds: seq<Feed>, failing: set<string>, now: int, i: nat)
    requires i < |feeds|
    ensures var f, g := feeds[i], MarkPending(feeds, failing, now)[i];
            && g.(lastFetchedAt := f.lastFetchedAt, lastFetchStatus := f.lastFetchStatus) == f
            && (f.isActive && f.url !in failing ==>
                  g.lastFetchedAt == Some(now) && g.lastFetchStatus == Some(Pending))
            && (!f.isActive || f.url in failing ==> g == f)
    decreases i
  {
    var r := MarkPending(feeds, failing, now);
    assert r[1..] == MarkPending(feeds[1..], failing, now);
    if i > 0 {
      MarkPendingAt(feeds[1..], failing, now, i - 1);
      assert feeds[i] == feeds[1..][i - 1] && r[i] == r[1..][i - 1];
    }
  }

  /** The queueing step: hand the active feeds' URLs to the queue in one
      bulk call, then mark those feeds pending. A throwing enqueue leaves
      queue and feeds alone; a failed status update comes after the enqueue,
      so the tasks stay queued. */
  function Enqueue(w: World, faults: SweepFaults, now: int): Sweep {
    var urls := Urls(ActiveFeeds(w.feeds));
    if faults.enqueueFails then Sweep(Errored, w)
    else
      var marked := MarkPending(w.feeds, faults.markFails, now);
      var outcome := if exists i :: 0 <= i < |urls| && urls[i] in faults.markFails then Errored else Queued(|urls|);
      Sweep(outcome, w.(feeds := marked, queue := w.queue + urls))
  }

  /** The body of `fetchAndQueueJobs` inside its `try`: read the active
      feeds; if there are none, seed and read once more, and give up if
      there are still none; otherwise queue them. */
  function SweepBody(w: World, faults: SweepFaults, now: int): Sweep {
    if faults.readFails then Sweep(Errored, w)
    else if ActiveFeeds(w.feeds) != [] then Enqueue(w, faults, now)
    else
      var seeded := w.(feeds := InitializeJobFeeds(w.feeds, faults.seedFailsAt));
      if faults.rereadFails then Sweep(Errored, seeded)
      else if ActiveFeeds(seeded.feeds) == [] then Sweep(NoActiveFeeds, seeded)
      else Enqueue(seeded, faults, now)
  }

  /** `fetchAndQueueJobs`: skipped while another sweep holds the guard;
      otherwise the guard is raised before the first store call, the body
      runs, and the guard is lowered again in `finally`, whatever the body
      did. Errors never leave the sweep. */
  function FetchAndQueueJobs(w: World, faults: SweepFaults, now: int): (r: Sweep)
    ensures r.outcome == Skipped <==> w.sched.isRunning
    ensures r.world.sched == w.sched
    ensures |w.queue| <= |r.world.queue| && r.world.queue[..|w.queue|] == w.queue
  {
    if w.sched.isRunning then Sweep(Skipped, w)
    else
      var body := SweepBody(w.(sched := w.sched.(isRunning := true)), faults, now);
      Sweep(body.outcome, body.world.(sched := body.world.sched.(isRunning := false)))
  }

  /** `triggerManualFetch`: the same sweep, behind the same guard. */
  function TriggerManualFetch(w: World, faults: SweepFaults, now: int): (r: Sweep)
    ensures r.outcome == Skipped <==> w.sched.isRunning
    ensures r.world.sched == w.sched
    ensures |w.queue| <= |r.world.queue| && r.world.queue[..|w.queue|] == w.queue
  {
    FetchAndQueueJobs(w, faults, now)
  }

  /** While a sweep is in flight, a scheduled or a manual sweep reads
      nothing, queues nothing and leaves the guard raised. */
  lemma OverlapIsSkipped(w: World, faults: SweepFaults, now: int)
    requires w.sched.isRunning
    ensures FetchAndQueueJobs(w, faults, now) == Sweep(Skipped, w)
    ensures TriggerManualFetch(w, faults, now) == Sweep(Skipped, w)
  {
  }

  /** A sweep raises the guard before its first store call and keeps it
      raised until the end: a second sweep started in the middle of it is
      skipped, and once it ends the guard is down on every path. */
  lemma GuardHeldThroughout(w: World, faults: SweepFaults, now: int, other: SweepFaults, later: int)
    requires !w.sched.isRunning
    ensures var inFlight := w.(sched := w.sched.(isRunning := true));
            && FetchAndQueueJobs(inFlight, other, later) == Sweep(Skipped, inFlight)
            && SweepBody(inFlight, faults, now).world.sched.isRunning
            && !FetchAndQueueJobs(w, faults, now).world.sched.isRunning
  {
  }

  /** With active feeds stored, the sweep seeds nothing: it queues exactly
      the active feeds' URLs in storage order, each once, and marks them
      pending. */
  lemma SweepQueuesActiveFeeds(w: World, faults: SweepFaults, now: int)
    requires !w.sched.isRunning && !faults.readFails && !faults.enqueueFails
    requires ActiveFeeds(w.feeds) != [] && DistinctUrls(w.feeds)
    ensures var r := FetchAndQueueJobs(w, faults, now);
            var urls := Urls(ActiveFeeds(w.feeds));
            && r.world.queue == w.queue + urls
            && Distinct(urls)
            && (forall f :: f in w.feeds && f.isActive ==> f.url in urls)
            && r.world.feeds == MarkPending(w.feeds, faults.markFails, now)
            && (faults.markFails == {} ==> r.outcome == Queued(|ActiveFeeds(w.feeds)|))
  {
    ActiveUrlsDistinct(w.feeds);
    forall f | f in w.feeds && f.isActive ensures f.url in Urls(ActiveFeeds(w.feeds)) {
      var i :| 0 <= i < |ActiveFeeds(w.feeds)| && ActiveFeeds(w.feeds)[i] == f;
      assert Urls(ActiveFeeds(w.feeds))[i] == f.url;
    }
  }

  /** The active feeds of a store with unique URLs have unique URLs. */
  lemma {:induction false} ActiveUrlsDistinct(feeds: seq<Feed>)
    requires DistinctUrls(feeds)
    ensures Distinct(Urls(ActiveFeeds(feeds)))
  {
    if feeds != [] {
      var rest := feeds[1..];
      var a := ActiveFeeds(rest);
      assert Urls(feeds) == [feeds[0].url] + Urls(rest);
      DistinctCons(feeds[0].url, Urls(rest));
      ActiveUrlsDistinct(rest);
      UrlsSubset(a, rest);
      if feeds[0].isActive {
        assert Urls(ActiveFeeds(feeds)) == [feeds[0].url] + Urls(a);
        DistinctCons(feeds[0].url, Urls(a));
      } else {
        assert ActiveFeeds(feeds) == a;
      }
    }
  }

  /** A list with a head is distinct exactly when its tail is and lacks the head. */
  lemma DistinctCons(x: string, s: seq<string>)
    ensures Distinct([x] + s) <==> x !in s && Distinct(s)
  {
    var t := [x] + s;
    assert forall i :: 0 <= i < |s| ==> t[i + 1] == s[i];
    if x in s {
      var k :| 0 <= k < |s| && s[k] == x;
      assert t[0] == t[k + 1];
    }
  }

  /** Feeds drawn from another list have URLs drawn from its URLs. */
  lemma UrlsSubset(a: seq<Feed>, b: seq<Feed>)
    requires forall f :: f in a ==> f in b
    ensures forall u :: u in Urls(a) ==> u in Urls(b)
  {
    forall u | u in Urls(a) ensures u in Urls(b) {
      var i :| 0 <= i < |a| && Urls(a)[i] == u;
      assert a[i] in b;
      var k :| 0 <= k < |b| && b[k] == a[i];
      assert Urls(b)[k] == u;
    }
  }

  /** With no active feed stored, the sweep seeds the built-in feeds and
      reads again; if that read is empty too it stops without queueing
      anything. */
  lemma SweepSeedsWhenEmpty(w: World, faults: SweepFaults, now: int)
    requires !w.sched.isRunning && !faults.readFails && ActiveFeeds(w.feeds) == []
    ensures var r := FetchAndQueueJobs(w, faults, now);
            var seeded := InitializeJobFeeds(w.feeds, faults.seedFailsAt);
            && (r.world.feeds == seeded || r.world.feeds == MarkPending(seeded, faults.markFails, now))
            && (!faults.rereadFails && ActiveFeeds(seeded) == [] ==>
                  r.outcome == NoActiveFeeds && r.world.queue == w.queue)
            && (!faults.rereadFails && !faults.enqueueFails && ActiveFeeds(seeded) != [] ==>
                  r.world.queue == w.queue + Urls(ActiveFeeds(seeded)))
  {
  }

  /** Errors are caught: a failed read or a failed enqueue ends the sweep as
      failed with nothing queued, and the guard is down again. */
  lemma SweepSwallowsErrors(w: World, faults: SweepFaults, now: int)
    requires !w.sched.isRunning
    requires faults.readFails || faults.enqueueFails || (faults.rereadFails && ActiveFeeds(w.feeds) == [])
    ensures var r := FetchAndQueueJobs(w, faults, now);
            && (r.outcome == Errored || r.outcome == NoActiveFeeds)
            && r.world.queue == w.queue && !r.world.sched.isRunning
            && (faults.readFails ==> r.world.feeds == w.feeds && r.outcome == Errored)
  {
  }

  /** A sweep over a store with no active feed and none of the built-in
      URLs (an empty store, say), with no errors, seeds the built-in feeds and
      queues their URLs in list order; the new feeds end up active and
      pending, and the feeds already stored are untouched. */
  lemma FirstSweepQueuesDefaults(w: World, now: int)
    requires !w.sched.isRunning && ActiveFeeds(w.feeds) == [] && DistinctUrls(w.feeds)
    requires forall j :: 0 <= j < |DefaultFeeds| ==> DefaultFeeds[j].url !in Urls(w.feeds)
    ensures var noFaults := SweepFaults(false, None, false, false, {});
            var r := FetchAndQueueJobs(w, noFaults, now);
            && r.world.queue == w.queue + SeedUrls(DefaultFeeds)
            && r.outcome == Queued(|DefaultFeeds|)
            && |r.world.feeds| == |w.feeds| + |DefaultFeeds|
            && r.world.feeds[..|w.feeds|] == w.feeds
            && (forall i :: |w.feeds| <= i < |r.world.feeds| ==>
                  r.world.feeds[i].isActive && r.world.feeds[i].lastFetchStatus == Some(Pending)
                  && r.world.feeds[i].lastFetchedAt == Some(now))
  {
    var noFaults := SweepFaults(false, None, false, false, {});
    var seeded := InitializeJobFeeds(w.feeds, None);
    DefaultFeedsDistinct();
    SeedFresh(w.feeds, DefaultFeeds);
    var inFlight := w.(sched := w.sched.(isRunning := true));
    assert SweepBody(inFlight, noFaults, now) == Enqueue(inFlight.(feeds := seeded), noFaults, now);
    EnqueueFreshFeeds(inFlight, now, Inserts(DefaultFeeds));
  }

  /** Queueing, with no errors, from a store whose only active feeds are
      the newly appended ones queues those and marks them pending. */
  lemma EnqueueFreshFeeds(w: World, now: int, added: seq<Feed>)
    requires ActiveFeeds(w.feeds) == [] && ActiveFeeds(w.feeds + added) == added
    ensures var r := Enqueue(w.(feeds := w.feeds + added), SweepFaults(false, None, false, false, {}), now);
            && r.world.queue == w.queue + Urls(added)
            && r.outcome == Queued(|added|)
            && |r.world.feeds| == |w.feeds| + |added|
            && r.world.feeds[..|w.feeds|] == w.feeds
            && (forall i :: |w.feeds| <= i < |r.world.feeds| ==>
                  r.world.feeds[i].isActive && r.world.feeds[i].lastFetchStatus == Some(Pending)
                  && r.world.feeds[i].lastFetchedAt == Some(now))
  {
    var all := w.feeds + added;
    forall k | 0 <= k < |added| ensures added[k].isActive {
      assert added[k] in ActiveFeeds(all);
    }
    MarkAfterInactive(w.feeds, added, now);
  }

  /** Marking a store whose active feeds all follow its inactive ones
      leaves the inactive ones alone and marks the rest pending. */
  lemma MarkAfterInactive(before: seq<Feed>, added: seq<Feed>, now: int)
    requires ActiveFeeds(before) == []
    requires forall k :: 0 <= k < |added| ==> added[k].isActive
    ensures var m := MarkPending(before + added, {}, now);
            && m[..|before|] == before
            && (forall i :: |before| <= i < |m| ==>
                  m[i].isActive && m[i].lastFetchStatus == Some(Pending) && m[i].lastFetchedAt == Some(now))
  {
    var all := before + added;
    var m := MarkPending(all, {}, now);
    MarkPendingSpec(all, {}, now);
    forall i | 0 <= i < |before| ensures m[i] == before[i] {
      assert all[i] == before[i] && before[i] in before;
    }
    forall i | |before| <= i < |m|
      ensures m[i].isActive && m[i].lastFetchStatus == Some(Pending) && m[i].lastFetchedAt == Some(now)
    {
      assert all[i] == added[i - |before|];
    }
    assert m[..|before|] == before;
  }

  /** Seeding a store with no active feed and none of the seeds' URLs
      leaves exactly the new feeds active, in seed order. */
  lemma SeedFresh(feeds: seq<Feed>, seeds: seq<FeedSeed>)
    requires DistinctSeeds(seeds) && ActiveFeeds(feeds) == []
    requires forall j :: 0 <= j < |seeds| ==> seeds[j].url !in Urls(feeds)
    ensures var seeded := SeedAll(feeds, seeds);
            && seeded == feeds + Inserts(seeds)
            && ActiveFeeds(seeded) == Inserts(seeds)
            && Urls(Inserts(seeds)) == SeedUrls(seeds)
  {
    SeedAllFresh(feeds, seeds);
    ActiveConcat(feeds, Inserts(seeds));
    AllActive(Inserts(seeds));
  }

  /** The active feeds of a concatenation are those of each part. */
  lemma {:induction false} ActiveConcat(a: seq<Feed>, b: seq<Feed>)
    ensures ActiveFeeds(a + b) == ActiveFeeds(a) + ActiveFeeds(b)
  {
    if a != [] {
      assert (a + b)[1..] == a[1..] + b;
      ActiveConcat(a[1..], b);
      ConcatAssociative(if a[0].isActive then [a[0]] else [], ActiveFeeds(a[1..]), ActiveFeeds(b));
    } else {
      assert a + b == b;
    }
  }

  /** A store whose feeds are all active is its own active list. */
  lemma {:induction false} AllActive(feeds: seq<Feed>)
    requires forall i :: 0 <= i < |feeds| ==> feeds[i].isActive
    ensures ActiveFeeds(feeds) == feeds
  {
    if feeds != [] {
      AllActive(feeds[1..]);
    }
  }
}
