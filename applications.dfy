/** The application controller: a worker applies to an open job, the job's
    farmer moves the application through its statuses under the capacity
    rule, and the two parties read it. */
module Applications {
  import opened Common
  import opened Schema
  import opened Queries
  import opened Ledger

  /** The statuses the status endpoint accepts, from their names. */
  function Target(status: string): (t: Option<AppStatus>)
    ensures t.Some? <==> status in {"ACCEPTED", "REJECTED", "COMPLETED"}
    ensures t.Some? ==> t.value != AppStatus.PENDING
  {
    if status == "ACCEPTED" then Some(ACCEPTED)
    else if status == "REJECTED" then Some(REJECTED)
    else if status == "COMPLETED" then Some(AppStatus.COMPLETED)
    else None
  }

  /** Whether `worker` already has an application to job `j` (the lookup by
      the unique key (jobId, workerId)). */
  predicate HasApplied(apps: map<Id, Application>, j: Id, worker: Id)
  {
    exists a :: a in apps && apps[a].jobId == j && apps[a].workerId == worker
  }

  /** A successful application is remembered: the same worker applying to
      the same job again finds it. */
  lemma AppliedAfterInsert(db: Tables, a: Application)
    requires db.Valid() && a.jobId in db.jobs && a.workerId in db.workerProfiles
    requires !HasApplied(db.applications, a.jobId, a.workerId)
    ensures HasApplied(db.InsertApplication(a).applications, a.jobId, a.workerId)
  {
    var t := db.InsertApplication(a);
    assert t.applications[db.nextId] == a;
  }

  /** An accept that passed the count check adds one to the job's ACCEPTED
      applications, unless the application was ACCEPTED already; the job is
      then marked IN_PROGRESS exactly when that count reaches the number of
      places, never goes past it, and re-accepting an application that was
      already ACCEPTED never flips the job. */
  lemma {:induction false} FlipExactlyWhenFull(db: Tables, id: Id)
    requires db.Valid() && id in db.applications
    requires HasRoom(db, id, ACCEPTED)
    ensures var t, j := Transitioned(db, id, ACCEPTED), db.applications[id].jobId;
      && AcceptedCount(t.applications, j) ==
         AcceptedCount(db.applications, j) + (if db.applications[id].status == ACCEPTED then 0 else 1)
      && AcceptedCount(t.applications, j) <= db.jobs[j].workersNeeded
      && t.jobs == (if AcceptedCount(t.applications, j) == db.jobs[j].workersNeeded
                    then db.jobs[j := db.jobs[j].(status := IN_PROGRESS)] else db.jobs)
    ensures db.applications[id].status == ACCEPTED ==> Transitioned(db, id, ACCEPTED).jobs == db.jobs
  {
    var t, j := Transitioned(db, id, ACCEPTED), db.applications[id].jobId;
    ReplacedIs(db.applications, t.applications, id, db.applications[id].(status := ACCEPTED));
    AcceptedAfterSetStatus(db.applications, id, ACCEPTED, j);
  }

  /** The checks `createApplication` makes before it writes, in order. */
  predicate CanApply(db: Tables, caller: Option<Caller>, jobId: Option<Id>)
  {
    && caller.Some? && caller.value.role == WORKER
    && jobId.Some? && jobId.value in db.jobs
    && db.jobs[jobId.value].status == OPEN
    && !HasApplied(db.applications, jobId.value, caller.value.userId)
  }

  /** `POST /applications`: a worker applies to an open job, once. The new
      application is PENDING, so the capacity rule is untouched. */
  method CreateApplication(s: Store, caller: Option<Caller>, jobId: Option<Id>, message: Option<string>) returns (r: Reply<Id>)
    requires s.db.Valid()
    requires caller.Some? ==> s.db.RoleCurrent(caller.value)
    modifies s
    ensures s.db.Valid()
    ensures old(s.db.CapacityHolds()) ==> s.db.CapacityHolds()
    ensures old(s.db.AveragesHold()) ==> s.db.AveragesHold()
    ensures caller.None? ==> r == Fail(401, UNAUTHORIZED)
    ensures caller.Some? && caller.value.role != WORKER ==>
      r == Fail(403, Msg("Only workers can apply to jobs"))
    ensures caller.Some? && caller.value.role == WORKER && jobId.None? ==>
      r == Fail(400, Msg("Job ID is required"))
    ensures caller.Some? && caller.value.role == WORKER && jobId.Some? && jobId.value !in old(s.db.jobs) ==>
      r == Fail(404, Msg("Job not found"))
    ensures (caller.Some? && caller.value.role == WORKER && jobId.Some? && jobId.value in old(s.db.jobs)
      && old(s.db.jobs)[jobId.value].status != OPEN) ==>
      r == Fail(400, Msg("This job is no longer accepting applications"))
    ensures (caller.Some? && caller.value.role == WORKER && jobId.Some? && jobId.value in old(s.db.jobs)
      && old(s.db.jobs)[jobId.value].status == OPEN && HasApplied(old(s.db.applications), jobId.value, caller.value.userId)) ==>
      r == Fail(400, Msg("You have already applied to this job"))
    ensures CanApply(old(s.db), caller, jobId) && caller.value.userId !in old(s.db.users) ==>
      r == Fail(500, INTERNAL_ERROR)
    ensures r.Ok? <==> CanApply(old(s.db), caller, jobId) && caller.value.userId in old(s.db.users)
    ensures r.Fail? ==> unchanged(s)
    ensures r.Ok? ==>
      r == Ok(201, old(s.db.nextId)) && s.db == old(s.db).InsertApplication(Application(jobId.value, caller.value.userId, message, AppStatus.PENDING))
  {
    if caller.None? {
      return Fail(401, UNAUTHORIZED);
    }
    var user := caller.value;
    if user.role != WORKER {
      return Fail(403, Msg("Only workers can apply to jobs"));
    }
    if jobId.None? {
      return Fail(400, Msg("Job ID is required"));
    }
    var j := jobId.value;
    if j !in s.db.jobs {
      return Fail(404, Msg("Job not found"));
    }
    if s.db.jobs[j].status != OPEN {
      return Fail(400, Msg("This job is no longer accepting applications"));
    }
    if HasApplied(s.db.applications, j, user.userId) {
      return Fail(400, Msg("You have already applied to this job"));
    }
    if user.userId !in s.db.users {
      // the worker foreign key of the insert fails
      return Fail(500, INTERNAL_ERROR);
    }
    r := Ok(201, s.db.nextId);
    s.db := s.db.InsertApplication(Application(j, user.userId, message, AppStatus.PENDING));
  }

  /** The checks `updateApplicationStatus` makes before its transaction. */
  predicate MayUpdate(db: Tables, caller: Option<Caller>, id: Id, status: string)
    requires db.Valid()
  {
    && caller.Some? && Target(status).Some? && id in db.applications
    && db.jobs[db.applications[id].jobId].farmerId == caller.value.userId
  }

  /** The count check inside the transaction: an accept needs a free place. */
  predicate HasRoom(db: Tables, id: Id, st: AppStatus)
    requires db.Valid() && id in db.applications
  {
    var j := db.applications[id].jobId;
    st == ACCEPTED ==> AcceptedCount(db.applications, j) < db.jobs[j].workersNeeded
  }

  /** The writes of the transaction: the application takes the new status
      and nothing else about it changes; an accept that leaves the job with
      as many ACCEPTED applications as places marks the job IN_PROGRESS; no
      other table changes. */
  function Transitioned(db: Tables, id: Id, st: AppStatus): (t: Tables)
    requires db.Valid() && id in db.applications
    ensures t.Valid()
    ensures db.CapacityHolds() && HasRoom(db, id, st) ==> t.CapacityHolds()
    ensures db.AveragesHold() ==> t.AveragesHold()
    ensures Replaced(db.applications, t.applications, id, db.applications[id].(status := st))
    ensures t.jobs ==
      var j := db.applications[id].jobId;
      if st == ACCEPTED && AcceptedCount(t.applications, j) >= db.jobs[j].workersNeeded
      then db.jobs[j := db.jobs[j].(status := IN_PROGRESS)] else db.jobs
    ensures t.(applications := db.applications, jobs := db.jobs) == db
  {
    var d := db.SetApplicationStatus(id, st);
    var j := db.applications[id].jobId;
    assert d.jobs == db.jobs;
    if st == ACCEPTED && AcceptedCount(d.applications, j) >= d.jobs[j].workersNeeded then
      var job := d.jobs[j].(status := IN_PROGRESS);
      CapacityAt(d.jobs, d.applications, j);
      var t := d.PutJob(j, job);
      ReplacedIs(d.jobs, t.jobs, j, job);
      assert t.applications == d.applications;
      t
    else d
  }

  /** `PUT /applications/:id/status`: the job's farmer sets an application to
      ACCEPTED, REJECTED or COMPLETED. The current status is not consulted.
      An accept first counts the job's ACCEPTED applications inside the
      transaction; a full job makes the transaction throw, which the handler
      reports as a 500, and nothing is written. After an accept that fills
      the job, the job is marked IN_PROGRESS. */
  method UpdateApplicationStatus(s: Store, caller: Option<Caller>, id: Id, status: string) returns (r: Reply<Application>)
    requires s.db.Valid()
    modifies s
    ensures s.db.Valid()
    ensures old(s.db.CapacityHolds()) ==> s.db.CapacityHolds()
    ensures old(s.db.AveragesHold()) ==> s.db.AveragesHold()
    ensures caller.None? ==> r == Fail(401, UNAUTHORIZED)
    ensures caller.Some? && Target(status).None? ==> r == Fail(400, Msg("Invalid status"))
    ensures caller.Some? && Target(status).Some? && id !in old(s.db.applications) ==>
      r == Fail(404, Msg("Application not found"))
    ensures (caller.Some? && Target(status).Some? && id in old(s.db.applications)
      && !MayUpdate(old(s.db), caller, id, status)) ==>
      r == Fail(403, Msg("You can only update applications for your own jobs"))
    ensures MayUpdate(old(s.db), caller, id, status) && !HasRoom(old(s.db), id, Target(status).value) ==>
      r == Fail(500, INTERNAL_ERROR)
    ensures r.Ok? <==> MayUpdate(old(s.db), caller, id, status) && HasRoom(old(s.db), id, Target(status).value)
    ensures r.Fail? ==> unchanged(s)
    ensures r.Ok? ==>
      s.db == Transitioned(old(s.db), id, Target(status).value) && r == Ok(200, s.db.applications[id])
  {
    if caller.None? {
      return Fail(401, UNAUTHORIZED);
    }
    var st := Target(status);
    if st.None? {
      return Fail(400, Msg("Invalid status"));
    }
    if id !in s.db.applications {
      return Fail(404, Msg("Application not found"));
    }
    if s.db.jobs[s.db.applications[id].jobId].farmerId != caller.value.userId {
      return Fail(403, Msg("You can only update applications for your own jobs"));
    }
    r := StatusTransaction(s, id, st.value);
  }

  /** The transaction of `updateApplicationStatus`, once the application is
      found and belongs to the caller's job. */
  method StatusTransaction(s: Store, id: Id, st: AppStatus) returns (r: Reply<Application>)
    requires s.db.Valid() && id in s.db.applications
    modifies s
    ensures s.db.Valid()
    ensures old(s.db.CapacityHolds()) ==> s.db.CapacityHolds()
    ensures old(s.db.AveragesHold()) ==> s.db.AveragesHold()
    ensures !HasRoom(old(s.db), id, st) ==> r == Fail(500, INTERNAL_ERROR) && unchanged(s)
    ensures HasRoom(old(s.db), id, st) ==>
      s.db == Transitioned(old(s.db), id, st) && r == Ok(200, s.db.applications[id])
  {
    // an accept counts the job's ACCEPTED applications first; a full job
    // makes the transaction throw
    if !HasRoom(s.db, id, st) {
      return Fail(500, INTERNAL_ERROR);
    }
    s.db := Transitioned(s.db, id, st);
    r := Ok(200, s.db.applications[id]);
  }

  /** The `where: { workerId }` condition. */
  function ByWorker(worker: Id): Application -> bool
  {
    (a: Application) => a.workerId == worker
  }

  /** `GET /applications/my-applications`: exactly the caller's own
      applications, newest first. */
  function GetMyApplications(db: Tables, caller: Option<Caller>): (r: Reply<seq<Id>>)
    requires db.Valid()
    ensures caller.None? ==> r == Fail(401, UNAUTHORIZED)
    ensures caller.Some? && caller.value.role != WORKER ==> r == Fail(403, Msg("Only workers can view their applications"))
    ensures r.Ok? <==> caller.Some? && caller.value.role == WORKER
    ensures r.Ok? ==> r.code == 200 && Descending(r.value)
    ensures r.Ok? ==> forall a :: a in r.value <==> a in db.applications && db.applications[a].workerId == caller.value.userId
  {
    if caller.None? then Fail(401, UNAUTHORIZED)
    else if caller.value.role != WORKER then Fail(403, Msg("Only workers can view their applications"))
    else
      var mine := NewestFirst(db.applications, ByWorker(caller.value.userId), db.nextId);
      NewestFirstExact(db.applications, ByWorker(caller.value.userId), db.nextId);
      NewestFirstDescending(db.applications, ByWorker(caller.value.userId), db.nextId);
      Ok(200, mine)
  }

  /** `GET /applications/:id`: visible to the worker who applied and to the
      farmer who owns the job, and to nobody else. */
  function GetApplicationById(db: Tables, caller: Option<Caller>, id: Id): (r: Reply<Application>)
    requires db.Valid()
    ensures caller.None? ==> r == Fail(401, UNAUTHORIZED)
    ensures caller.Some? && id !in db.applications ==> r == Fail(404, Msg("Application not found"))
    ensures r.Ok? <==> (caller.Some? && id in db.applications
      && (db.applications[id].workerId == caller.value.userId
          || db.jobs[db.applications[id].jobId].farmerId == caller.value.userId))
    ensures r.Ok? ==> r == Ok(200, db.applications[id])
    ensures r.Fail? && caller.Some? && id in db.applications ==>
      r == Fail(403, Msg("You do not have permission to view this application"))
  {
    if caller.None? then Fail(401, UNAUTHORIZED)
    else if id !in db.applications then Fail(404, Msg("Application not found"))
    else
      var a := db.applications[id];
      if a.workerId != caller.value.userId && db.jobs[a.jobId].farmerId != caller.value.userId then
        Fail(403, Msg("You do not have permission to view this application"))
      else Ok(200, a)
  }
}
