/** The job controller: farmers post, edit and delete jobs; anyone lists them
    with filters and pagination; a farmer lists their own. */
module Jobs {
  import opened Common
  import opened Schema
  import opened Queries
  import opened Ledger

  /** The fields of a job posting as the request body carries them. */
  datatype JobInput = JobInput(
    title: Option<string>,
    description: Option<string>,
    jobType: Option<string>,
    location: Option<string>,
    latitude: Option<real>,
    longitude: Option<real>,
    wagePerDay: Arg<real>,
    duration: Arg<int>,
    workersNeeded: Arg<int>,
    requiredSkills: Option<seq<string>>,
    startDate: Option<string>)

  /** The `!title || ... || !startDate` check: every required field is truthy. */
  predicate HasRequiredFields(i: JobInput)
  {
    && Given(i.title) && Given(i.description) && Given(i.jobType) && Given(i.location)
    && i.wagePerDay.Truthy? && i.duration.Truthy? && i.workersNeeded.Truthy? && Given(i.startDate)
  }

  /** Every number parses (a NaN makes the store refuse the row). */
  predicate Parses(i: JobInput)
    requires HasRequiredFields(i)
  {
    i.wagePerDay.parsed.Value? && i.duration.parsed.Value? && i.workersNeeded.parsed.Value?
  }

  /** The row `createJob` writes: the caller's job, OPEN, with the parsed
      numbers and no skills when none are given. */
  function NewJob(farmer: Id, i: JobInput): (j: Job)
    requires HasRequiredFields(i) && Parses(i)
    ensures j.farmerId == farmer && j.status == OPEN
    ensures j.wagePerDay == i.wagePerDay.parsed.v && j.duration == i.duration.parsed.v
      && j.workersNeeded == i.workersNeeded.parsed.v
    ensures i.requiredSkills.None? ==> j.requiredSkills == []
  {
    Job(farmer, i.title.value, i.description.value, i.jobType.value, i.location.value,
        i.latitude, i.longitude, i.wagePerDay.parsed.v, i.duration.parsed.v, i.workersNeeded.parsed.v,
        OrElse(i.requiredSkills, []), i.startDate.value, OPEN)
  }

  /** The farmer's `totalJobsPosted: { increment: 1 }`. */
  function Posted(fp: FarmerProfile): (r: FarmerProfile)
    ensures r.averageRating == fp.averageRating
  {
    fp.(totalJobsPosted := fp.totalJobsPosted + 1)
  }

  /** `POST /jobs`: a farmer posts an OPEN job; the two writes (the job, then
      the farmer's posted count) are not in one transaction, but the second
      cannot fail for an authenticated farmer. */
  method CreateJob(s: Store, caller: Option<Caller>, input: JobInput) returns (r: Reply<Id>)
    requires s.db.Valid()
    requires caller.Some? ==> s.db.RoleCurrent(caller.value)
    modifies s
    ensures s.db.Valid()
    ensures old(s.db.CapacityHolds()) ==> s.db.CapacityHolds()
    ensures old(s.db.AveragesHold()) ==> s.db.AveragesHold()
    ensures caller.None? ==> r == Fail(401, UNAUTHORIZED)
    ensures caller.Some? && caller.value.role != FARMER ==> r == Fail(403, Msg("Only farmers can create jobs"))
    ensures caller.Some? && caller.value.role == FARMER && !HasRequiredFields(input) ==>
      r == Fail(400, Msg("Missing required fields"))
    ensures caller.Some? && caller.value.role == FARMER && HasRequiredFields(input) && !Parses(input) ==>
      r == Fail(500, INTERNAL_ERROR)
    ensures caller.Some? && caller.value.role == FARMER && HasRequiredFields(input) && caller.value.userId !in old(s.db.users) ==>
      r == Fail(500, INTERNAL_ERROR)
    ensures r.Ok? <==>
      caller.Some? && caller.value.role == FARMER && HasRequiredFields(input) && Parses(input) && caller.value.userId in old(s.db.users)
    ensures r.Fail? ==> unchanged(s)
    ensures r.Ok? ==>
      var d := old(s.db).InsertJob(NewJob(caller.value.userId, input));
      && r == Ok(201, old(s.db.nextId))
      && s.db == d.PutFarmerProfile(caller.value.userId, Posted(d.farmerProfiles[caller.value.userId]))
  {
    if caller.None? {
      return Fail(401, UNAUTHORIZED);
    }
    if caller.value.role != FARMER {
      return Fail(403, Msg("Only farmers can create jobs"));
    }
    if !HasRequiredFields(input) {
      return Fail(400, Msg("Missing required fields"));
    }
    if !Parses(input) || caller.value.userId !in s.db.users {
      // a column that does not parse, or the farmer foreign key, fails the insert
      return Fail(500, INTERNAL_ERROR);
    }
    r := Ok(201, s.db.nextId);
    s.db := s.db.InsertJob(NewJob(caller.value.userId, input));
    s.db := s.db.PutFarmerProfile(caller.value.userId, Posted(s.db.farmerProfiles[caller.value.userId]));
  }

  // ---------------------------------------------------------------- listing

  /** A pagination parameter: the query string's value through `parseInt`,
      or its default when absent. */
  function ParamOr(p: Option<Parsed<int>>, default: int): Parsed<int>
  {
    if p.Some? then p.value else Value(default)
  }

  function Max(a: int, b: int): int { if a < b then b else a }

  function Min(a: int, b: int): int { if a < b then a else b }

  /** `Math.ceil(a / b)` for a non-negative count and a positive divisor. */
  function CeilDiv(a: nat, b: int): (c: nat)
    requires b > 0
    ensures (c - 1) * b < a <= c * b
  {
    var c := (a + b - 1) / b;
    assert a + b - 1 == c * b + (a + b - 1) % b;
    c
  }

  /** One page of a listing and its metadata, as the list handlers send it. */
  datatype Page<T> = Page(items: seq<T>, page: int, limit: int, total: int, totalPages: int, hasMore: bool)

  /** `skip` rows, then at most `take`: the store's `skip`/`take`. */
  function Window<T>(all: seq<T>, skip: nat, take: nat): (w: seq<T>)
    ensures |w| <= take
    ensures skip < |all| ==> w == all[skip..Min(|all|, skip + take)]
    ensures skip >= |all| ==> w == []
  {
    if skip < |all| then all[skip..Min(|all|, skip + take)] else []
  }

  /** The rows before page `page` of `limit` rows. */
  function Skip(page: int, limit: int): (n: nat)
    requires page >= 1 && limit >= 1
  {
    MulMonotone(0, page - 1, limit);
    (page - 1) * limit
  }

  /** The page window over a full listing: `pageNum = max(1, page)`,
      `limitNum = min(100, max(1, limit))`, `skip = (pageNum - 1) * limitNum`,
      `take = limitNum`. A NaN parameter reaches the store as a NaN skip or
      take, which it refuses. */
  function Paginate<T>(all: seq<T>, page: Option<Parsed<int>>, limit: Option<Parsed<int>>): (r: Reply<Page<T>>)
    ensures r.Fail? <==> ParamOr(page, 1).NaN? || ParamOr(limit, 20).NaN?
    ensures r.Fail? ==> r == Fail(500, INTERNAL_ERROR)
    ensures r.Ok? ==>
      r.code == 200
      && r.value.page == Max(1, ParamOr(page, 1).v)
      && r.value.limit == Min(100, Max(1, ParamOr(limit, 20).v))
      && r.value.total == |all|
    ensures r.Ok? ==>
      1 <= r.value.limit <= 100
      && r.value.items == Window(all, Skip(r.value.page, r.value.limit), r.value.limit)
    ensures r.Ok? ==> r.value.totalPages == CeilDiv(r.value.total, r.value.limit)
    ensures r.Ok? ==> (r.value.hasMore <==> Skip(r.value.page, r.value.limit) + |r.value.items| < r.value.total)
    ensures r.Ok? ==> (r.value.hasMore <==> r.value.page < r.value.totalPages)
  {
    var p, l := ParamOr(page, 1), ParamOr(limit, 20);
    if p.NaN? || l.NaN? then Fail(500, INTERNAL_ERROR)
    else
      var pageNum := Max(1, p.v);
      var limitNum := Min(100, Max(1, l.v));
      var skip := Skip(pageNum, limitNum);
      var items := Window(all, skip, limitNum);
      var totalPages := CeilDiv(|all|, limitNum);
      MoreIffNotLast(|all|, limitNum, pageNum, |items|);
      Ok(200, Page(items, pageNum, limitNum, |all|, totalPages, skip + |items| < |all|))
  }

  lemma MulMonotone(a: int, b: int, c: int)
    requires a <= b && c >= 0
    ensures a * c <= b * c
  {
    assert b * c - a * c == (b - a) * c;
  }

  /** `hasMore` (`skip + jobs.length < total`) holds exactly on the pages
      before the last (`page < totalPages`). */
  lemma MoreIffNotLast(total: nat, limit: int, page: int, taken: int)
    requires limit >= 1 && page >= 1
    requires var skip := Skip(page, limit);
      taken == if skip < total then Min(total, skip + limit) - skip else 0
    ensures Skip(page, limit) + taken < total <==> page < CeilDiv(total, limit)
  {
    var c := CeilDiv(total, limit);
    var skip := Skip(page, limit);
    assert page * limit == skip + limit;
    if page < c {
      MulMonotone(page, c - 1, limit);
    } else {
      MulMonotone(c, page, limit);
    }
  }

  /** The statuses a `status` filter may name. */
  function ParseJobStatus(s: string): (r: Option<JobStatus>)
    ensures r.Some? <==> s in {"OPEN", "IN_PROGRESS", "COMPLETED", "CANCELLED"}
  {
    if s == "OPEN" then Some(OPEN)
    else if s == "IN_PROGRESS" then Some(IN_PROGRESS)
    else if s == "COMPLETED" then Some(JobStatus.COMPLETED)
    else if s == "CANCELLED" then Some(CANCELLED)
    else None
  }

  /** ASCII lower case; other characters are left as they are. */
  function LowerChar(c: char): (d: char)
    ensures 'A' <= c <= 'Z' ==> 'a' <= d <= 'z' && d as int == c as int + 32
    ensures !('A' <= c <= 'Z') ==> d == c
  {
    if 'A' <= c <= 'Z' then (c as int + 32) as char else c
  }

  function Lower(s: string): (r: string)
    ensures |r| == |s| && forall k :: 0 <= k < |s| ==> r[k] == LowerChar(s[k])
  {
    seq(|s|, k requires 0 <= k < |s| => LowerChar(s[k]))
  }

  /** Whether `needle` occurs in `hay` as a contiguous run. */
  predicate Contains(hay: string, needle: string)
  {
    exists k :: 0 <= k <= |hay| - |needle| && OccursAt(hay, needle, k)
  }

  predicate OccursAt(hay: string, needle: string, k: int)
    requires 0 <= k <= |hay| - |needle|
  {
    hay[k..k + |needle|] == needle
  }

  /** `{ contains: location, mode: 'insensitive' }`, with case folding over
      ASCII letters only. */
  predicate ContainsInsensitive(hay: string, needle: string)
  {
    Contains(Lower(hay), Lower(needle))
  }

  /** Lower-casing is idempotent, leaves no ASCII upper-case letter, and
      leaves a string without one as it is. */
  lemma LowerLaws(s: string)
    ensures Lower(Lower(s)) == Lower(s)
    ensures forall k :: 0 <= k < |s| ==> !('A' <= Lower(s)[k] <= 'Z')
    ensures (forall k :: 0 <= k < |s| ==> !('A' <= s[k] <= 'Z')) ==> Lower(s) == s
  {
  }

  /** The matching is insensitive to case: two strings whose characters
      agree up to case give the same answer, on either side. */
  lemma InsensitiveToCase(hay: string, needle: string, hay': string, needle': string)
    requires |hay'| == |hay| && forall k :: 0 <= k < |hay| ==> LowerChar(hay'[k]) == LowerChar(hay[k])
    requires |needle'| == |needle| && forall k :: 0 <= k < |needle| ==> LowerChar(needle'[k]) == LowerChar(needle[k])
    ensures ContainsInsensitive(hay, needle) <==> ContainsInsensitive(hay', needle')
  {
    assert Lower(hay) == Lower(hay');
    assert Lower(needle) == Lower(needle');
  }

  /** A location that contains the query exactly also matches it. */
  lemma ExactIsInsensitive(hay: string, needle: string)
    requires Contains(hay, needle)
    ensures ContainsInsensitive(hay, needle)
  {
    var k :| 0 <= k <= |hay| - |needle| && OccursAt(hay, needle, k);
    var lh, ln := Lower(hay), Lower(needle);
    forall i | 0 <= i < |needle|
      ensures lh[k..k + |needle|][i] == ln[i]
    {
      assert hay[k + i] == needle[i];
    }
    assert OccursAt(lh, ln, k);
  }

  /** The `where` object `getJobs` builds: each truthy query field adds a
      condition. */
  datatype Filter = Filter(status: Option<JobStatus>, jobType: Option<string>, location: Option<string>)

  /** The query's filter, or None when `status` names no job status (the
      store then refuses the query). */
  function FilterOf(status: Option<string>, jobType: Option<string>, location: Option<string>): (f: Option<Filter>)
    ensures f.None? <==> Given(status) && ParseJobStatus(status.value).None?
    ensures f.Some? ==>
      (f.value.status.Some? <==> Given(status))
      && (f.value.jobType.Some? <==> Given(jobType))
      && (f.value.location.Some? <==> Given(location))
  {
    if Given(status) && ParseJobStatus(status.value).None? then None
    else
      Some(Filter(
        if Given(status) then ParseJobStatus(status.value) else None,
        if Given(jobType) then jobType else None,
        if Given(location) then location else None))
  }

  predicate Matches(f: Filter, j: Job)
  {
    && (f.status.Some? ==> j.status == f.status.value)
    && (f.jobType.Some? ==> j.jobType == f.jobType.value)
    && (f.location.Some? ==> ContainsInsensitive(j.location, f.location.value))
  }

  function Matching(f: Filter): Job -> bool
  {
    (j: Job) => Matches(f, j)
  }

  /** A query without truthy filter fields builds the empty `where`, and
      the listing then holds every job. */
  lemma NoFilterKeepsAll(db: Tables, status: Option<string>, jobType: Option<string>, location: Option<string>)
    requires db.Valid()
    requires !Given(status) && !Given(jobType) && !Given(location)
    ensures FilterOf(status, jobType, location) == Some(Filter(None, None, None))
    ensures forall j :: j in NewestFirst(db.jobs, Matching(Filter(None, None, None)), db.nextId) <==> j in db.jobs
  {
    NewestFirstExact(db.jobs, Matching(Filter(None, None, None)), db.nextId);
  }

  /** `GET /jobs`: the matching jobs, newest first, one page of them. */
  function GetJobs(db: Tables, status: Option<string>, jobType: Option<string>, location: Option<string>,
                   page: Option<Parsed<int>>, limit: Option<Parsed<int>>): (r: Reply<Page<Id>>)
    requires db.Valid()
    ensures FilterOf(status, jobType, location).None? ==> r == Fail(500, INTERNAL_ERROR)
    ensures FilterOf(status, jobType, location).Some? ==>
      var all := NewestFirst(db.jobs, Matching(FilterOf(status, jobType, location).value), db.nextId);
      && r == Paginate(all, page, limit)
      && Descending(all)
      && (forall j :: j in all <==> j in db.jobs && Matches(FilterOf(status, jobType, location).value, db.jobs[j]))
  {
    var f := FilterOf(status, jobType, location);
    if f.None? then Fail(500, INTERNAL_ERROR)
    else
      var all := NewestFirst(db.jobs, Matching(f.value), db.nextId);
      NewestFirstExact(db.jobs, Matching(f.value), db.nextId);
      NewestFirstDescending(db.jobs, Matching(f.value), db.nextId);
      Paginate(all, page, limit)
  }

  /** `GET /jobs/:id`. */
  function GetJobById(db: Tables, id: Id): (r: Reply<Job>)
    ensures id in db.jobs <==> r.Ok?
    ensures r.Ok? ==> r == Ok(200, db.jobs[id])
    ensures r.Fail? ==> r == Fail(404, Msg("Job not found"))
  {
    if id in db.jobs then Ok(200, db.jobs[id]) else Fail(404, Msg("Job not found"))
  }

  /** The `where: { farmerId }` condition. */
  function OwnedBy(farmer: Id): Job -> bool
  {
    (j: Job) => j.farmerId == farmer
  }

  /** `GET /jobs/my-jobs`: the caller's own jobs, newest first, one page. */
  function GetMyJobs(db: Tables, caller: Option<Caller>, page: Option<Parsed<int>>, limit: Option<Parsed<int>>): (r: Reply<Page<Id>>)
    requires db.Valid()
    ensures caller.None? ==> r == Fail(401, UNAUTHORIZED)
    ensures caller.Some? && caller.value.role != FARMER ==> r == Fail(403, Msg("Only farmers can view their jobs"))
    ensures caller.Some? && caller.value.role == FARMER ==>
      var all := NewestFirst(db.jobs, OwnedBy(caller.value.userId), db.nextId);
      && r == Paginate(all, page, limit)
      && Descending(all)
      && (forall j :: j in all <==> j in db.jobs && db.jobs[j].farmerId == caller.value.userId)
  {
    if caller.None? then Fail(401, UNAUTHORIZED)
    else if caller.value.role != FARMER then Fail(403, Msg("Only farmers can view their jobs"))
    else
      var all := NewestFirst(db.jobs, OwnedBy(caller.value.userId), db.nextId);
      NewestFirstExact(db.jobs, OwnedBy(caller.value.userId), db.nextId);
      NewestFirstDescending(db.jobs, OwnedBy(caller.value.userId), db.nextId);
      Paginate(all, page, limit)
  }

  // --------------------------------------------------------------- changing

  /** The body of `PUT /jobs/:id`, passed to the store as it is: each given
      field overwrites the column. (`latitude`/`longitude` may be set to null.) */
  datatype JobPatch = JobPatch(
    title: Option<string>,
    description: Option<string>,
    jobType: Option<string>,
    location: Option<string>,
    latitude: Option<Option<real>>,
    longitude: Option<Option<real>>,
    wagePerDay: Option<real>,
    duration: Option<int>,
    workersNeeded: Option<int>,
    requiredSkills: Option<seq<string>>,
    startDate: Option<string>,
    status: Option<JobStatus>)

  const EMPTY_PATCH := JobPatch(None, None, None, None, None, None, None, None, None, None, None, None)

  /** The job after the patch. */
  function Patched(j: Job, p: JobPatch): (r: Job)
    ensures r.farmerId == j.farmerId
    ensures r.title == OrElse(p.title, j.title) && r.description == OrElse(p.description, j.description)
    ensures r.jobType == OrElse(p.jobType, j.jobType) && r.location == OrElse(p.location, j.location)
    ensures r.latitude == OrElse(p.latitude, j.latitude) && r.longitude == OrElse(p.longitude, j.longitude)
    ensures r.wagePerDay == OrElse(p.wagePerDay, j.wagePerDay) && r.duration == OrElse(p.duration, j.duration)
    ensures r.workersNeeded == OrElse(p.workersNeeded, j.workersNeeded)
    ensures r.requiredSkills == OrElse(p.requiredSkills, j.requiredSkills) && r.startDate == OrElse(p.startDate, j.startDate)
    ensures r.status == OrElse(p.status, j.status)
  {
    Job(j.farmerId, OrElse(p.title, j.title), OrElse(p.description, j.description), OrElse(p.jobType, j.jobType),
        OrElse(p.location, j.location), OrElse(p.latitude, j.latitude), OrElse(p.longitude, j.longitude),
        OrElse(p.wagePerDay, j.wagePerDay), OrElse(p.duration, j.duration), OrElse(p.workersNeeded, j.workersNeeded),
        OrElse(p.requiredSkills, j.requiredSkills), OrElse(p.startDate, j.startDate), OrElse(p.status, j.status))
  }

  /** An empty body changes nothing, and applying a body twice is applying
      it once. */
  lemma PatchLaws(j: Job, p: JobPatch)
    ensures Patched(j, EMPTY_PATCH) == j
    ensures Patched(Patched(j, p), p) == Patched(j, p)
  {
  }

  /** `PUT /jobs/:id`: the job's farmer overwrites any of its columns. The
      handler does not re-check the capacity rule, so it is kept exactly
      when the job's ACCEPTED applications still fit the new number of
      places. */
  method UpdateJob(s: Store, caller: Option<Caller>, id: Id, patch: JobPatch) returns (r: Reply<Job>)
    requires s.db.Valid()
    modifies s
    ensures s.db.Valid()
    ensures old(s.db.AveragesHold()) ==> s.db.AveragesHold()
    ensures caller.None? ==> r == Fail(401, UNAUTHORIZED)
    ensures caller.Some? && id !in old(s.db.jobs) ==> r == Fail(404, Msg("Job not found"))
    ensures caller.Some? && id in old(s.db.jobs) && old(s.db.jobs)[id].farmerId != caller.value.userId ==>
      r == Fail(403, Msg("You can only update your own jobs"))
    ensures r.Ok? <==> caller.Some? && id in old(s.db.jobs) && old(s.db.jobs)[id].farmerId == caller.value.userId
    ensures r.Fail? ==> unchanged(s)
    ensures r.Ok? ==>
      r == Ok(200, Patched(old(s.db.jobs)[id], patch))
      && s.db == old(s.db).PutJob(id, Patched(old(s.db.jobs)[id], patch))
    ensures r.Ok? && old(s.db.CapacityHolds()) ==>
      (s.db.CapacityHolds() <==> AcceptedCount(s.db.applications, id) <= Slots(s.db.jobs[id].workersNeeded))
  {
    if caller.None? {
      return Fail(401, UNAUTHORIZED);
    }
    if id !in s.db.jobs {
      return Fail(404, Msg("Job not found"));
    }
    var job := s.db.jobs[id];
    if job.farmerId != caller.value.userId {
      return Fail(403, Msg("You can only update your own jobs"));
    }
    var updated := Patched(job, patch);
    s.db := s.db.PutJob(id, updated);
    r := Ok(200, updated);
  }

  /** A store with one farmer (0), one worker (1), a job for one worker (2)
      and the worker's ACCEPTED application to it (3). */
  function OneAcceptedJob(): (db: Tables)
    ensures db.Valid() && db.CapacityHolds()
    ensures 2 in db.jobs && AcceptedCount(db.applications, 2) == 1 && db.jobs[2].farmerId == 0
  {
    var farmer := User("9876543210", "F", None, "h", FARMER, None, None, None);
    var worker := User("9876543211", "W", None, "h", WORKER, None, None, None);
    var job := Job(0, "t", "d", "harvest", "x", None, None, 500.0, 1, 1, [], "2024-01-01", OPEN);
    var apps := map[3 := Application(2, 1, None, ACCEPTED)];
    assert AcceptedOf(apps, 2) == {3};
    Tables(map[0 := farmer, 1 := worker],
           map[1 := WorkerProfile([], [], "x", None, None, 0, [], 0.0, 0, 0.0)],
           map[0 := FarmerProfile("f", "x", None, None, None, [], 0.0, 1, 0.0)],
           map[2 := job], apps, map[], map[], 4)
  }

  /** The capacity rule can be broken by `updateJob`: the farmer of a full
      job lowers `workersNeeded` below its ACCEPTED applications. */
  lemma UpdateJobCanOverfill()
    ensures var db := OneAcceptedJob();
      var patch := EMPTY_PATCH.(workersNeeded := Some(0));
      && db.CapacityHolds()
      && !db.PutJob(2, Patched(db.jobs[2], patch)).CapacityHolds()
  {
    var db := OneAcceptedJob();
    var t := db.PutJob(2, Patched(db.jobs[2], EMPTY_PATCH.(workersNeeded := Some(0))));
    assert AcceptedCount(t.applications, 2) > Slots(t.jobs[2].workersNeeded);
  }

  /** Whether some application refers to job `j`. */
  predicate Referenced(apps: map<Id, Application>, j: Id)
  {
    exists a :: a in apps && apps[a].jobId == j
  }

  /** `DELETE /jobs/:id`: the job's farmer deletes it. The store refuses to
      delete a job that applications refer to, which the handler reports as
      a 500. The farmer's posted count is not decremented. */
  method DeleteJob(s: Store, caller: Option<Caller>, id: Id) returns (r: Reply<()>)
    requires s.db.Valid()
    modifies s
    ensures s.db.Valid()
    ensures old(s.db.CapacityHolds()) ==> s.db.CapacityHolds()
    ensures old(s.db.AveragesHold()) ==> s.db.AveragesHold()
    ensures caller.None? ==> r == Fail(401, UNAUTHORIZED)
    ensures caller.Some? && id !in old(s.db.jobs) ==> r == Fail(404, Msg("Job not found"))
    ensures caller.Some? && id in old(s.db.jobs) && old(s.db.jobs)[id].farmerId != caller.value.userId ==>
      r == Fail(403, Msg("You can only delete your own jobs"))
    ensures (caller.Some? && id in old(s.db.jobs) && old(s.db.jobs)[id].farmerId == caller.value.userId
      && Referenced(old(s.db.applications), id)) ==> r == Fail(500, INTERNAL_ERROR)
    ensures r.Ok? <==> (caller.Some? && id in old(s.db.jobs) && old(s.db.jobs)[id].farmerId == caller.value.userId
      && !Referenced(old(s.db.applications), id))
    ensures r.Fail? ==> unchanged(s)
    ensures r.Ok? ==> r == Ok(200, ()) && s.db == old(s.db).DeleteJob(id)
  {
    if caller.None? {
      return Fail(401, UNAUTHORIZED);
    }
    if id !in s.db.jobs {
      return Fail(404, Msg("Job not found"));
    }
    if s.db.jobs[id].farmerId != caller.value.userId {
      return Fail(403, Msg("You can only delete your own jobs"));
    }
    if Referenced(s.db.applications, id) {
      return Fail(500, INTERNAL_ERROR);
    }
    s.db := s.db.DeleteJob(id);
    r := Ok(200, ());
  }
}
