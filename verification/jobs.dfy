/** The web app's job table: submission (validation, merge, the initial
    record), the worker's progress callback and its three terminal
    transitions, age-based cleanup of the in-memory table, and the
    memory-then-disk lookup. Each step is a pure transition of `Store`. */
module Jobs {
  import opened Wrappers
  import opened Text
  import opened Queries
  import opened Fields
  import opened Events
  import opened Details
  import opened Summary
  import opened Scraper

  datatype Status = Running | Completed | Error

  /** One job record. `createdAt` is in seconds; `None` stands for a
      record without `created_at`. */
  datatype Job = Job(
    id: string,
    status: Status,
    progress: int,
    messages: seq<Line>,
    summary: Option<Summary>,
    filepath: Option<string>,
    filename: Option<string>,
    csvFilepath: Option<string>,
    csvFilename: Option<string>,
    error: Option<string>,
    createdAt: Option<int>)

  /** A snapshot saved to disk (`<id>_meta.json`) and the time, in
      seconds, it was written, which is the file's modification time. */
  datatype Saved = Saved(job: Job, savedAt: int)

  /** The in-memory table and the job snapshots saved to disk. */
  datatype Store = Store(memory: map<string, Job>, disk: map<string, Saved>)

  const JobExpirySeconds: int := 2 * 60 * 60

  // ---------------------------------------------------------------------
  // Lookup and cleanup
  // ---------------------------------------------------------------------

  /** `_get_job`: the in-memory record when there is one, otherwise the
      saved snapshot, otherwise nothing. */
  function GetJob(st: Store, id: string): (r: Option<Job>)
    ensures id in st.memory ==> r == Some(st.memory[id])
    ensures id !in st.memory && id in st.disk ==> r == Some(st.disk[id].job)
    ensures r.None? <==> id !in st.memory && id !in st.disk
  {
    if id in st.memory then Some(st.memory[id])
    else if id in st.disk then Some(st.disk[id].job)
    else None
  }

  /** Created more than two hours before `now`; a record without a
      creation time counts as created now. */
  predicate Expired(j: Job, now: int) {
    j.createdAt.GetOr(now) < now - JobExpirySeconds
  }

  /** A snapshot written more than two hours before `now`. */
  predicate Stale(s: Saved, now: int) {
    s.savedAt < now - JobExpirySeconds
  }

  /** `cleanup_old_jobs`: exactly the expired records are removed from the
      table, whatever their status, and exactly the stale snapshots from
      the disk; what remains is unchanged. */
  function Cleanup(st: Store, now: int): (r: Store)
    ensures forall id :: id in r.memory <==> id in st.memory && !Expired(st.memory[id], now)
    ensures forall id :: id in r.memory ==> r.memory[id] == st.memory[id]
    ensures forall id :: id in r.disk <==> id in st.disk && !Stale(st.disk[id], now)
    ensures forall id :: id in r.disk ==> r.disk[id] == st.disk[id]
  {
    Store(
      map id | id in st.memory && !Expired(st.memory[id], now) :: st.memory[id],
      map id | id in st.disk && !Stale(st.disk[id], now) :: st.disk[id])
  }

  /** A record without a creation time survives every cleanup. */
  lemma UndatedJobsKept(st: Store, now: int, id: string)
    requires id in st.memory && st.memory[id].createdAt.None?
    ensures id in Cleanup(st, now).memory
  {
  }

  /** Cleaning up twice is cleaning up at the later time: whatever was
      expired (or stale) at the earlier time is so at the later one. */
  lemma CleanupLater(st: Store, t1: int, t2: int)
    requires t1 <= t2
    ensures Cleanup(Cleanup(st, t1), t2) == Cleanup(st, t2)
  {
    var a, b := Cleanup(Cleanup(st, t1), t2), Cleanup(st, t2);
    assert forall id :: id in st.memory && Expired(st.memory[id], t1) ==> Expired(st.memory[id], t2);
    assert a.memory == b.memory;
    assert a.disk == b.disk;
  }

  /** What the lookup finds after a cleanup at `now`: the record while it
      is not expired, else the snapshot while it is not stale, else
      nothing. */
  lemma LookupAfterCleanup(st: Store, id: string, now: int)
    ensures var r := GetJob(Cleanup(st, now), id);
      && (id in st.memory && !Expired(st.memory[id], now) ==> r == Some(st.memory[id]))
      && (((id !in st.memory || Expired(st.memory[id], now)) && id in st.disk && !Stale(st.disk[id], now))
            ==> r == Some(st.disk[id].job))
      && (r.None? <==>
            (id !in st.memory || Expired(st.memory[id], now)) && (id !in st.disk || Stale(st.disk[id], now)))
  {
  }

  // ---------------------------------------------------------------------
  // Submission
  // ---------------------------------------------------------------------

  /** The JSON body of a submission; `None` stands for a missing or empty
      body. Absent keys are `None` (or the empty list). */
  datatype Payload = Payload(
    apiKey: Option<string>,
    location: Option<string>,
    radius: Option<int>,
    categories: seq<string>,
    customQueries: Option<string>)

  const DefaultRadius: int := 3000

  /** A submission that passed validation: the stripped key and location,
      the merged categories and the radius. */
  datatype Request = Request(apiKey: string, location: string, categories: seq<string>, radius: int)

  /** What the worker thread is started with. */
  datatype Launch = Launch(jobId: string, apiKey: string, location: string, categories: seq<string>, radius: int)

  datatype Reply = Rejected(code: nat, message: string) | Started(jobId: string)

  datatype Submission = Submission(store: Store, reply: Reply, launch: Option<Launch>)

  /** The submitted categories followed by the non-empty, stripped terms of
      the (already stripped) custom query text, in order. */
  function MergeCategories(categories: seq<string>, customQueries: string): (r: seq<string>)
    ensures |categories| <= |r| && r[..|categories|] == categories
    ensures forall k :: |categories| <= k < |r| ==> IsTerm(r[k])
    ensures customQueries == "" ==> r == categories
  {
    if customQueries != "" then
      var extra := CommaTerms(customQueries);
      var r := categories + extra;
      assert forall k :: |categories| <= k < |r| ==> r[k] == extra[k - |categories|];
      r
    else categories
  }

  /** Custom terms typed as a comma list arrive as exactly those terms. */
  lemma MergeTerms(categories: seq<string>, terms: seq<string>)
    requires forall k :: 0 <= k < |terms| ==> IsTerm(terms[k])
    ensures MergeCategories(categories, Strip(Join(terms, ","))) == categories + terms
  {
    JoinTermsStripped(terms);
    CommaTermsJoin(terms);
    MergeStripped(categories, Join(terms, ","), terms);
  }

  /** Custom text whose comma terms are `terms` merges to exactly those
      terms. */
  lemma MergeStripped(categories: seq<string>, custom: string, terms: seq<string>)
    requires CommaTerms(custom) == terms
    requires custom == "" <==> terms == []
    ensures MergeCategories(categories, custom) == categories + terms
  {
    if custom == "" {
      assert categories + terms == categories;
    } else {
      MergeCustom(categories, custom);
    }
  }

  /** Non-empty custom text contributes exactly its comma terms. */
  lemma MergeCustom(categories: seq<string>, custom: string)
    requires custom != ""
    ensures MergeCategories(categories, custom) == categories + CommaTerms(custom)
  {
  }

  /** The record a new job starts as. */
  function NewJob(id: string, now: int): (j: Job)
    ensures j.id == id && j.status == Running && j.progress == 0 && j.messages == []
    ensures j.summary.None? && j.filepath.None? && j.filename.None? && j.error.None?
    ensures j.createdAt == Some(now)
  {
    Job(id, Running, 0, [], None, None, None, None, None, None, Some(now))
  }

  const NoDataMessage: string := "No data provided"
  const NoKeyMessage: string := "Google API key is required"
  const NoLocationMessage: string := "Location is required"
  const NoCategoryMessage: string := "Select at least one category or enter custom queries"

  /** The checks of `start_scrape`, in order: no body, blank key, blank
      location, neither categories nor custom text. The first that fails
      gives its message; a request that passes all of them carries the
      stripped key and location and the merged categories. */
  function Validate(data: Option<Payload>): (r: Result<Request, string>)
    ensures data.None? <==> r == Failure(NoDataMessage)
    ensures data.Some? ==>
      (Strip(data.value.apiKey.GetOr("")) == "" <==> r == Failure(NoKeyMessage))
    ensures data.Some? && Strip(data.value.apiKey.GetOr("")) != "" ==>
      (Strip(data.value.location.GetOr("")) == "" <==> r == Failure(NoLocationMessage))
    ensures data.Some? && Strip(data.value.apiKey.GetOr("")) != "" && Strip(data.value.location.GetOr("")) != "" ==>
      ((|data.value.categories| == 0 && Strip(data.value.customQueries.GetOr("")) == "")
       <==> r == Failure(NoCategoryMessage))
    ensures r.Success? <==>
      && data.Some? && Strip(data.value.apiKey.GetOr("")) != "" && Strip(data.value.location.GetOr("")) != ""
      && (|data.value.categories| > 0 || Strip(data.value.customQueries.GetOr("")) != "")
    ensures r.Success? ==>
      && r.value.apiKey == Strip(data.value.apiKey.GetOr(""))
      && r.value.location == Strip(data.value.location.GetOr(""))
      && r.value.categories == MergeCategories(data.value.categories, Strip(data.value.customQueries.GetOr("")))
      && r.value.radius == data.value.radius.GetOr(DefaultRadius)
  {
    match data
    case None => Failure(NoDataMessage)
    case Some(p) =>
      var apiKey := Strip(p.apiKey.GetOr(""));
      var location := Strip(p.location.GetOr(""));
      var custom := Strip(p.customQueries.GetOr(""));
      if apiKey == "" then Failure(NoKeyMessage)
      else if location == "" then Failure(NoLocationMessage)
      else if |p.categories| == 0 && custom == "" then Failure(NoCategoryMessage)
      else Success(Request(apiKey, location, MergeCategories(p.categories, custom), p.radius.GetOr(DefaultRadius)))
  }

  /** `start_scrape`. Cleanup runs first, whatever follows. A rejected
      submission is answered with 400 and adds no record; an accepted one
      adds exactly one new running record under `jobId` and launches the
      worker with the validated request. */
  function Submit(st: Store, data: Option<Payload>, now: int, jobId: string): (r: Submission)
    ensures r.store.disk == Cleanup(st, now).disk
    ensures Validate(data).Failure? ==>
      && r.reply == Rejected(400, Validate(data).error)
      && r.store == Cleanup(st, now) && r.launch.None?
    ensures Validate(data).Success? ==>
      var q := Validate(data).value;
      && r.reply == Started(jobId)
      && r.store.memory == Cleanup(st, now).memory[jobId := NewJob(jobId, now)]
      && r.launch == Some(Launch(jobId, q.apiKey, q.location, q.categories, q.radius))
  {
    var cleaned := Cleanup(st, now);
    match Validate(data)
    case Failure(e) => Submission(cleaned, Rejected(400, e), None)
    case Success(q) =>
      Submission(Store(cleaned.memory[jobId := NewJob(jobId, now)], cleaned.disk), Started(jobId),
        Some(Launch(jobId, q.apiKey, q.location, q.categories, q.radius)))
  }

  // ---------------------------------------------------------------------
  // The worker
  // ---------------------------------------------------------------------

  /** What one callback does to the record: the line is appended and,
      when a percent is given, it becomes the progress. */
  function Record(j: Job, line: Line, pct: Option<int>): (k: Job)
    ensures k.messages == j.messages + [line]
    ensures pct.Some? ==> k.progress == pct.value
    ensures pct.None? ==> k.progress == j.progress
    ensures k == j.(messages := k.messages, progress := k.progress)
  {
    j.(messages := j.messages + [line], progress := pct.GetOr(j.progress))
  }

  /** `progress_callback(message, percent)`: a record no longer in the
      table is left alone; otherwise only that record changes. */
  function Progress(st: Store, id: string, line: Line, pct: Option<int>): (r: Store)
    ensures id !in st.memory ==> r == st
    ensures r.disk == st.disk && r.memory.Keys == st.memory.Keys
    ensures id in st.memory ==> r.memory[id] == Record(st.memory[id], line, pct)
    ensures forall other :: other in st.memory && other != id ==> r.memory[other] == st.memory[other]
  {
    if id in st.memory then Store(st.memory[id := Record(st.memory[id], line, pct)], st.disk)
    else st
  }

  /** The callback applied to every event of a run, in order. */
  function Feed(st: Store, id: string, events: seq<Event>): Store
    decreases |events|
  {
    if |events| == 0 then st
    else Feed(Progress(st, id, events[0].line, events[0].pct), id, events[1..])
  }

  /** The same events applied to the one record. */
  function FeedRecord(j: Job, events: seq<Event>): Job
    decreases |events|
  {
    if |events| == 0 then j
    else FeedRecord(Record(j, events[0].line, events[0].pct), events[1..])
  }

  /** Feeding events for a record not in the table changes nothing. */
  lemma {:induction false} FeedAbsent(st: Store, id: string, events: seq<Event>)
    requires id !in st.memory
    ensures Feed(st, id, events) == st
    decreases |events|
  {
    if |events| > 0 {
      FeedAbsent(Progress(st, id, events[0].line, events[0].pct), id, events[1..]);
    }
  }

  /** Feeding touches only the one record: no record is added or removed,
      the others and the disk stay as they were. */
  lemma {:induction false} FeedFrame(st: Store, id: string, events: seq<Event>)
    requires id in st.memory
    ensures Feed(st, id, events).disk == st.disk
    ensures Feed(st, id, events).memory == st.memory[id := FeedRecord(st.memory[id], events)]
    decreases |events|
  {
    if |events| > 0 {
      var st1 := Progress(st, id, events[0].line, events[0].pct);
      FeedFrame(st1, id, events[1..]);
      assert st1.memory == st.memory[id := Record(st.memory[id], events[0].line, events[0].pct)];
    }
  }

  /** Feeding a run's events to a record appends exactly their lines. */
  lemma {:induction false} FeedRecordMessages(j: Job, events: seq<Event>)
    ensures FeedRecord(j, events).messages == j.messages + Lines(events)
    decreases |events|
  {
    if |events| == 0 {
      assert j.messages + Lines(events) == j.messages;
    } else {
      var e := events[0];
      var rest := events[1..];
      var k := Record(j, e.line, e.pct);
      assert FeedRecord(k, rest).messages == k.messages + Lines(rest) by {
        FeedRecordMessages(k, rest);
      }
      assert FeedRecord(j, events) == FeedRecord(k, rest);
      assert Lines(events) == [e.line] + Lines(rest);
      assert k.messages + Lines(rest) == j.messages + Lines(events);
    }
  }

  /** ... leaves the last percent supplied, if any, as its progress ... */
  lemma {:induction false} FeedRecordProgress(j: Job, events: seq<Event>)
    ensures FeedRecord(j, events).progress == LastPercent(events).GetOr(j.progress)
    decreases |events|
  {
    if |events| > 0 {
      var e := events[0];
      var rest := events[1..];
      FeedRecordProgress(Record(j, e.line, e.pct), rest);
      assert events == [e] + rest;
      LastPercentCons(e, rest, j.progress);
    }
  }

  /** ... and touches no other field. */
  lemma {:induction false} FeedRecordOthers(j: Job, events: seq<Event>)
    ensures FeedRecord(j, events) == j.(messages := FeedRecord(j, events).messages, progress := FeedRecord(j, events).progress)
    decreases |events|
  {
    if |events| > 0 {
      FeedRecordOthers(Record(j, events[0].line, events[0].pct), events[1..]);
    }
  }

  /** Both together, on the table. */
  lemma FeedEffect(st: Store, id: string, events: seq<Event>)
    requires id in st.memory
    ensures id in Feed(st, id, events).memory
    ensures var j := st.memory[id];
      Feed(st, id, events).memory[id]
        == j.(messages := j.messages + Lines(events), progress := LastPercent(events).GetOr(j.progress))
  {
    FeedFrame(st, id, events);
    FeedRecordMessages(st.memory[id], events);
    FeedRecordProgress(st.memory[id], events);
    FeedRecordOthers(st.memory[id], events);
  }

  /** The file names of an export: `slugify(location) + "_businesses"`
      with `.xlsx` or `.csv`, and the paths with the job id in front. */
  function BaseName(location: string): string {
    Slugify(location) + "_businesses"
  }

  function JobPath(tempDir: string, id: string, filename: string): string {
    tempDir + "/" + id + "_" + filename
  }

  /** Every record other than `id`, in memory and on disk, is as before. */
  ghost predicate OthersKept(st: Store, r: Store, id: string) {
    && (forall other :: other != id ==> (other in r.memory <==> other in st.memory))
    && (forall other :: other != id && other in st.memory ==> r.memory[other] == st.memory[other])
    && (forall other :: other != id ==> (other in r.disk <==> other in st.disk))
    && (forall other :: other != id && other in st.disk ==> r.disk[other] == st.disk[other])
  }

  /** The snapshot `_save_job_meta` writes at `now`. */
  function Save(st: Store, id: string, k: Job, now: int): (r: Store)
    ensures r.memory == st.memory[id := k]
    ensures r.disk == st.disk[id := Saved(k, now)]
  {
    Store(st.memory[id := k], st.disk[id := Saved(k, now)])
  }

  /** Completed with records: status completed, progress 100, both file
      paths and names and the summary set, the "Exported" line appended,
      and the record saved to disk. A removed record is left alone. */
  function CompleteWith(st: Store, id: string, count: nat, summary: Summary, location: string, tempDir: string, now: int): (r: Store)
    ensures id !in st.memory ==> r == st
    ensures OthersKept(st, r, id)
    ensures id in st.memory ==> id in r.memory && id in r.disk
    ensures id in st.memory ==>
      var j := st.memory[id];
      var k := r.memory[id];
      && r.disk[id] == Saved(k, now)
      && k.status == Completed && k.progress == 100
      && k.filepath == Some(JobPath(tempDir, id, BaseName(location) + ".xlsx"))
      && k.csvFilepath == Some(JobPath(tempDir, id, BaseName(location) + ".csv"))
      && k.summary == Some(summary)
      && k.messages == j.messages + [Exported(count)]
      && k.error == j.error && k.createdAt == j.createdAt
  {
    if id in st.memory then
      var j := st.memory[id];
      var xlsx := BaseName(location) + ".xlsx";
      var csv := BaseName(location) + ".csv";
      var k := j.(
        status := Completed,
        progress := 100,
        filepath := Some(JobPath(tempDir, id, xlsx)),
        filename := Some(xlsx),
        csvFilepath := Some(JobPath(tempDir, id, csv)),
        csvFilename := Some(csv),
        summary := Some(summary),
        messages := j.messages + [Exported(count)]);
      Save(st, id, k, now)
    else st
  }

  /** Completed without records: status completed, progress 100, the
      empty summary, no file, the "No businesses" line, saved to disk. */
  function CompleteEmpty(st: Store, id: string, now: int): (r: Store)
    ensures id !in st.memory ==> r == st
    ensures OthersKept(st, r, id)
    ensures id in st.memory ==> id in r.memory && id in r.disk
    ensures id in st.memory ==>
      var j := st.memory[id];
      var k := r.memory[id];
      && r.disk[id] == Saved(k, now)
      && k.status == Completed && k.progress == 100
      && k.summary == Some(EmptySummary) && k.summary.value.total == 0
      && k.filepath == j.filepath
      && k.messages == j.messages + [NoBusinesses]
  {
    if id in st.memory then
      var j := st.memory[id];
      var k := j.(status := Completed, progress := 100, summary := Some(EmptySummary),
        messages := j.messages + [NoBusinesses]);
      Save(st, id, k, now)
    else st
  }

  /** The run raised: status error, the message kept in `error` and
      appended as "Error: ..." to the log, saved to disk. */
  function Fail(st: Store, id: string, message: string, now: int): (r: Store)
    ensures id !in st.memory ==> r == st
    ensures OthersKept(st, r, id)
    ensures id in st.memory ==> id in r.memory && id in r.disk
    ensures id in st.memory ==>
      var j := st.memory[id];
      var k := r.memory[id];
      && r.disk[id] == Saved(k, now)
      && k.status == Error && k.error == Some(message)
      && k.progress == j.progress && k.filepath == j.filepath && k.summary == j.summary
      && k.messages == j.messages + [ErrorLine(message)]
  {
    if id in st.memory then
      var j := st.memory[id];
      var k := j.(status := Error, error := Some(message), messages := j.messages + [ErrorLine(message)]);
      Save(st, id, k, now)
    else st
  }

  /** The terminal transition for a run's outcome, saved at `now`. */
  function Finish(st: Store, id: string, result: Result<seq<Business>, string>, location: string, tempDir: string, now: int): Store {
    match result
    case Failure(e) => Fail(st, id, e, now)
    case Success(bs) =>
      if |bs| > 0 then CompleteWith(st, id, |bs|, GetSummary(bs), location, tempDir, now)
      else CompleteEmpty(st, id, now)
  }

  /** The worker's bookkeeping for a run: its events are fed to the
      callback, then its outcome is recorded at `now`. */
  function Settle(st: Store, id: string, run: Run, location: string, tempDir: string, now: int): Store {
    Finish(Feed(st, id, run.events), id, run.result, location, tempDir, now)
  }

  /** The scraper run a launched job makes: without coordinates, so it
      geocodes the location. */
  function LaunchRun(launch: Launch, provider: Provider): Run {
    RunScraper(launch.apiKey, launch.location, Tokens(launch.categories), launch.radius, None, provider)
  }

  /** What settling a run does to a job still in the store: its log gains
      the run's lines and then one closing line, and it ends completed
      exactly when the run succeeded and failed exactly when the run
      failed. */
  ghost predicate SettledBy(st: Store, r: Store, id: string, run: Run)
    requires id in st.memory
  {
    && id in r.memory
    && |r.memory[id].messages| == |st.memory[id].messages| + |run.events| + 1
    && r.memory[id].messages[..|st.memory[id].messages| + |run.events|] == st.memory[id].messages + Lines(run.events)
    && (r.memory[id].status == Completed <==> run.result.Success?)
    && (r.memory[id].status == Error <==> run.result.Failure?)
  }

  /** `_run_scrape_job`: the run is settled when it ends, at `now`; a job
      removed meanwhile is left alone. */
  function Work(st: Store, launch: Launch, provider: Provider, tempDir: string, now: int): (r: Store)
    ensures launch.jobId !in st.memory ==> r == st
    ensures launch.jobId in st.memory ==> SettledBy(st, r, launch.jobId, LaunchRun(launch, provider))
  {
    var run := LaunchRun(launch, provider);
    if launch.jobId in st.memory then
      SettleSettles(st, launch.jobId, run, launch.location, tempDir, now);
      Settle(st, launch.jobId, run, launch.location, tempDir, now)
    else
      RemovedJobUntouched(st, launch.jobId, run, launch.location, tempDir, now);
      Settle(st, launch.jobId, run, launch.location, tempDir, now)
  }

  lemma SettleSettles(st: Store, id: string, run: Run, location: string, tempDir: string, now: int)
    requires id in st.memory
    ensures SettledBy(st, Settle(st, id, run, location, tempDir, now), id, run)
  {
    SettleEffect(st, id, run, location, tempDir, now);
  }

  /** A worker whose record was removed (by a cleanup racing with it)
      changes nothing at all, not even the disk. */
  lemma RemovedJobUntouched(st: Store, id: string, run: Run, location: string, tempDir: string, now: int)
    requires id !in st.memory
    ensures Settle(st, id, run, location, tempDir, now) == st
  {
    FeedAbsent(st, id, run.events);
  }

  /** A worker whose record stays in the table leaves it finished: its log
      is the run's lines followed by one closing line, it is completed
      exactly when the run returned (then at 100), it is in error exactly
      when the run raised (keeping the message), and the disk holds the
      same snapshot. */
  lemma SettleEffect(st: Store, id: string, run: Run, location: string, tempDir: string, now: int)
    requires id in st.memory
    ensures var r := Settle(st, id, run, location, tempDir, now);
      && id in r.memory && id in r.disk && r.disk[id] == Saved(r.memory[id], now)
      && r.memory[id].createdAt == st.memory[id].createdAt
      && |r.memory[id].messages| == |st.memory[id].messages| + |run.events| + 1
      && r.memory[id].messages[..|st.memory[id].messages| + |run.events|] == st.memory[id].messages + Lines(run.events)
      && (r.memory[id].status == Completed <==> run.result.Success?)
      && (r.memory[id].status == Error <==> run.result.Failure?)
      && (run.result.Success? ==> r.memory[id].progress == 100)
      && (run.result.Failure? ==>
            (r.memory[id].error == Some(run.result.error)
             && r.memory[id].messages == st.memory[id].messages + Lines(run.events) + [ErrorLine(run.result.error)]))
  {
    FeedEffect(st, id, run.events);
    var fed := Feed(st, id, run.events);
    var m := st.memory[id].messages + Lines(run.events);
    assert fed.memory[id].messages == m;
    var r := Settle(st, id, run, location, tempDir, now);
    assert r.memory[id].messages == m + [r.memory[id].messages[|m|]];
  }

  /** A run that returned is recorded with its summary: for records, the
      summary of those records, the export paths and the "Exported" line;
      for none, the empty summary, no new file and the "No businesses"
      line. */
  lemma SettleCompleted(st: Store, id: string, run: Run, location: string, tempDir: string, now: int)
    requires id in st.memory && run.result.Success?
    ensures var r := Settle(st, id, run, location, tempDir, now);
      var bs := run.result.value;
      var k := |st.memory[id].messages| + |run.events|;
      && id in r.memory && |r.memory[id].messages| == k + 1
      && (|bs| > 0 ==>
            && r.memory[id].summary == Some(GetSummary(bs))
            && r.memory[id].filepath == Some(JobPath(tempDir, id, BaseName(location) + ".xlsx"))
            && r.memory[id].messages[k] == Exported(|bs|))
      && (|bs| == 0 ==>
            && r.memory[id].summary == Some(EmptySummary)
            && r.memory[id].filepath == st.memory[id].filepath
            && r.memory[id].messages[k] == NoBusinesses)
  {
    FeedEffect(st, id, run.events);
  }

  /** A record saved at `saved` is found by every lookup after a cleanup
      at `later` as long as the snapshot is not stale, and is the finished
      record: the table's copy while it lasts, then the snapshot. */
  lemma FinishedJobReadable(st: Store, id: string, run: Run, location: string, tempDir: string, saved: int, later: int)
    requires id in st.memory && later - JobExpirySeconds <= saved
    ensures var r := Settle(st, id, run, location, tempDir, saved);
      id in r.memory && GetJob(Cleanup(r, later), id) == Some(r.memory[id])
  {
    var now := saved;
    SettleEffect(st, id, run, location, tempDir, now);
    var r := Settle(st, id, run, location, tempDir, now);
    LookupAfterCleanup(r, id, later);
  }

  /** A record created no later than it was saved is gone from every
      lookup once a cleanup runs more than two hours after the save: the
      table entry has expired and the snapshot is stale. */
  lemma FinishedJobForgotten(st: Store, id: string, run: Run, location: string, tempDir: string, saved: int, later: int)
    requires id in st.memory && st.memory[id].createdAt.Some? && st.memory[id].createdAt.value <= saved
    requires saved < later - JobExpirySeconds
    ensures GetJob(Cleanup(Settle(st, id, run, location, tempDir, saved), later), id).None?
  {
    var now := saved;
    SettleEffect(st, id, run, location, tempDir, now);
    var r := Settle(st, id, run, location, tempDir, now);
    LookupAfterCleanup(r, id, later);
  }

  /** A custom query text made only of commas passes validation, with no
      category at all. */
  lemma CommaOnlyCustomQueryAccepted(key: string, location: string)
    requires Strip(key) != "" && Strip(location) != ""
    ensures Validate(Some(Payload(Some(key), Some(location), None, [], Some(","))))
      == Success(Request(Strip(key), Strip(location), [], DefaultRadius))
  {
    var data := Payload(Some(key), Some(location), None, [], Some(","));
    assert MergeCategories([], Strip(data.customQueries.GetOr(""))) == [] by {
      LoneCommaMerges();
    }
    assert Strip(data.customQueries.GetOr("")) != "" by {
      LoneComma();
    }
  }

  /** A lone comma merged into no category gives no category. */
  lemma LoneCommaMerges()
    ensures MergeCategories([], Strip(",")) == []
  {
    LoneComma();
    MergeCustom([], ",");
  }

  /** With no category the scraper raises "No categories selected" before
      emitting anything. */
  lemma EmptyLaunchRun(launch: Launch, provider: Provider)
    requires launch.categories == []
    ensures RunScraper(launch.apiKey, launch.location, Tokens(launch.categories), launch.radius, None, provider)
      == Run([], Failure(NoCategoriesMessage))
  {
    assert Categories(Tokens(launch.categories)) == [];
  }

  /** A worker launched with no category ends in error with "No categories
      selected" as the only line it adds. */
  lemma EmptyLaunchFails(st: Store, launch: Launch, provider: Provider, tempDir: string, now: int)
    requires launch.categories == [] && launch.jobId in st.memory
    ensures var r := Work(st, launch, provider, tempDir, now);
      var j := st.memory[launch.jobId];
      && launch.jobId in r.memory
      && r.memory[launch.jobId].status == Error
      && r.memory[launch.jobId].error == Some(NoCategoriesMessage)
      && r.memory[launch.jobId].messages == j.messages + [ErrorLine(NoCategoriesMessage)]
  {
    EmptyLaunchRun(launch, provider);
    var run := Run([], Failure(NoCategoriesMessage));
    SettleEffect(st, launch.jobId, run, launch.location, tempDir, now);
    assert Lines(run.events) == [];
  }

  /** Hence a comma-only custom query yields a job in error whose whole log
      is the one error line. */
  lemma CommaOnlyCustomQueryFails(st: Store, now: int, jobId: string, key: string, location: string, provider: Provider, tempDir: string, done: int)
    requires Strip(key) != "" && Strip(location) != ""
    ensures var sub := Submit(st, Some(Payload(Some(key), Some(location), None, [], Some(","))), now, jobId);
      && sub.reply == Started(jobId) && sub.launch.Some?
      && var r := Work(sub.store, sub.launch.value, provider, tempDir, done);
         && jobId in r.memory
         && r.memory[jobId].status == Error && r.memory[jobId].error == Some(NoCategoriesMessage)
         && r.memory[jobId].messages == [ErrorLine(NoCategoriesMessage)]
  {
    var data := Payload(Some(key), Some(location), None, [], Some(","));
    CommaOnlyCustomQueryAccepted(key, location);
    var sub := Submit(st, Some(data), now, jobId);
    var launch := sub.launch.value;
    assert launch.jobId == jobId && launch.categories == [];
    assert sub.store.memory[jobId] == NewJob(jobId, now);
    EmptyLaunchFails(sub.store, launch, provider, tempDir, done);
  }
}
