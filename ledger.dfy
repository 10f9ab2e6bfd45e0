/** The persistent store the controllers read and write: one map per table,
    keyed by row id (the profile tables by their user's id), and the next id
    the store will allocate. `Valid` gathers the constraints the schema and
    the handlers keep between requests; the capacity rule, the rating
    aggregates and unique contacts are kept apart from it, because they are
    the properties the handlers are proved to keep (and one handler can
    break the first). Each row write the handlers make is a function on the
    tables whose contract says which constraints it keeps. */
module Ledger {
  import opened Common
  import opened Schema
  import opened Queries
  import opened Reputation

  /** Every WORKER user has a worker profile and every FARMER user a farmer
      profile, and no profile belongs to anyone else. */
  ghost predicate ProfilesFollowRoles(users: map<Id, User>, wp: map<Id, WorkerProfile>, fp: map<Id, FarmerProfile>)
  {
    && (forall u :: u in wp <==> u in users && users[u].role == WORKER)
    && (forall u :: u in fp <==> u in users && users[u].role == FARMER)
  }

  /** Phone numbers, and e-mail addresses where present, identify users. */
  ghost predicate ContactsUnique(users: map<Id, User>)
  {
    forall a, b :: a in users && b in users && a != b ==>
      users[a].phone != users[b].phone && (users[a].email.None? || users[a].email != users[b].email)
  }

  ghost predicate JobsOwned(jobs: map<Id, Job>, fp: map<Id, FarmerProfile>)
  {
    forall j :: j in jobs ==> jobs[j].farmerId in fp
  }

  ghost predicate ApplicationsLinked(apps: map<Id, Application>, jobs: map<Id, Job>, wp: map<Id, WorkerProfile>)
  {
    forall a :: a in apps ==> apps[a].jobId in jobs && apps[a].workerId in wp
  }

  /** The unique constraint on (jobId, workerId). */
  ghost predicate OneApplicationPerWorker(apps: map<Id, Application>)
  {
    forall a, b :: a in apps && b in apps && apps[a].jobId == apps[b].jobId && apps[a].workerId == apps[b].workerId ==> a == b
  }

  ghost predicate PaymentsLinked(payments: map<Id, Payment>, apps: map<Id, Application>)
  {
    forall p :: p in payments ==> payments[p].applicationId in apps
  }

  /** The unique constraint on applicationId: at most one payment per application. */
  ghost predicate OnePaymentPerApplication(payments: map<Id, Payment>)
  {
    forall p, q :: p in payments && q in payments && payments[p].applicationId == payments[q].applicationId ==> p == q
  }

  /** Payments are held or released, carry a timestamp exactly when released,
      and hold an amount that passed the creation checks. */
  ghost predicate PaymentsWellFormed(payments: map<Id, Payment>)
  {
    forall p :: p in payments ==>
      && (payments[p].status == HELD_IN_ESCROW || payments[p].status == RELEASED)
      && (payments[p].releasedAt.Some? <==> payments[p].status == RELEASED)
      && 0.0 < payments[p].amount <= 1000000.0
  }

  /** Ratings link two distinct stored users and hold a score from 1 to 5. */
  ghost predicate RatingsWellFormed(ratings: map<Id, Rating>, users: map<Id, User>)
  {
    forall r :: r in ratings ==>
      && ratings[r].reviewerId in users && ratings[r].revieweeId in users
      && ratings[r].reviewerId != ratings[r].revieweeId
      && 1 <= ratings[r].rating <= 5
  }

  /** The unique constraint on (reviewerId, revieweeId). */
  ghost predicate OneRatingPerPair(ratings: map<Id, Rating>)
  {
    forall a, b :: a in ratings && b in ratings && ratings[a].reviewerId == ratings[b].reviewerId && ratings[a].revieweeId == ratings[b].revieweeId ==> a == b
  }

  /** The ACCEPTED applications of job `j`, which the status update counts. */
  function AcceptedOf(apps: map<Id, Application>, j: Id): set<Id>
  {
    set a | a in apps && apps[a].jobId == j && apps[a].status == ACCEPTED
  }

  function AcceptedCount(apps: map<Id, Application>, j: Id): nat
  {
    |AcceptedOf(apps, j)|
  }

  /** The number of places a job offers. The handlers do not check that
      `workersNeeded` is positive; a job with none or fewer offers none. */
  function Slots(workersNeeded: int): nat
  {
    if workersNeeded < 0 then 0 else workersNeeded
  }

  /** The referential integrity and uniqueness rules the schema enforces:
      ids below the next id, profiles matching roles, foreign keys resolving,
      one application per worker and job, one payment per application, one
      rating per reviewer and reviewee. */
  ghost predicate Consistent(users: map<Id, User>, workerProfiles: map<Id, WorkerProfile>, farmerProfiles: map<Id, FarmerProfile>,
    jobs: map<Id, Job>, applications: map<Id, Application>, payments: map<Id, Payment>, ratings: map<Id, Rating>, nextId: nat)
  {
    && KeysBelow(users, nextId) && KeysBelow(workerProfiles, nextId) && KeysBelow(farmerProfiles, nextId)
    && KeysBelow(jobs, nextId) && KeysBelow(applications, nextId) && KeysBelow(payments, nextId)
    && KeysBelow(ratings, nextId)
    && ProfilesFollowRoles(users, workerProfiles, farmerProfiles)
    && JobsOwned(jobs, farmerProfiles)
    && ApplicationsLinked(applications, jobs, workerProfiles)
    && OneApplicationPerWorker(applications)
    && PaymentsLinked(payments, applications)
    && OnePaymentPerApplication(payments)
    && PaymentsWellFormed(payments)
    && RatingsWellFormed(ratings, users)
    && OneRatingPerPair(ratings)
  }

  /** The capacity rule: no job has more ACCEPTED applications than places. */
  ghost predicate Capacity(jobs: map<Id, Job>, apps: map<Id, Application>)
  {
    forall j :: j in jobs ==> AcceptedCount(apps, j) <= Slots(jobs[j].workersNeeded)
  }

  /** The capacity rule at one job. */
  lemma CapacityAt(jobs: map<Id, Job>, apps: map<Id, Application>, j: Id)
    requires j in jobs
    ensures Capacity(jobs, apps) ==> AcceptedCount(apps, j) <= Slots(jobs[j].workersNeeded)
  {
  }

  /** Setting the status of one application changes the ACCEPTED count of
      its own job only, and that by at most one. */
  lemma AcceptedAfterSetStatus(apps: map<Id, Application>, id: Id, st: AppStatus, j: Id)
    requires id in apps
    ensures AcceptedCount(apps[id := apps[id].(status := st)], j) ==
      if apps[id].jobId != j then AcceptedCount(apps, j)
      else AcceptedCount(apps, j) - (if apps[id].status == ACCEPTED then 1 else 0) + (if st == ACCEPTED then 1 else 0)
  {
    var apps' := apps[id := apps[id].(status := st)];
    var before, after := AcceptedOf(apps, j), AcceptedOf(apps', j);
    assert after - {id} == before - {id};
    SizeWithout(after, id);
    SizeWithout(before, id);
  }

  lemma SizeWithout(s: set<Id>, x: Id)
    ensures |s| == |s - {x}| + (if x in s then 1 else 0)
  {
    if x in s {
      assert s == (s - {x}) + {x};
    } else {
      assert s == s - {x};
    }
  }

  /** Adding an application that is not ACCEPTED changes no count. */
  lemma AcceptedAfterInsert(apps: map<Id, Application>, id: Id, a: Application, j: Id)
    requires id !in apps && a.status != ACCEPTED
    ensures AcceptedCount(apps[id := a], j) == AcceptedCount(apps, j)
  {
    assert AcceptedOf(apps[id := a], j) == AcceptedOf(apps, j);
  }

  /** Capacity survives a status change that is not an accept into a full job. */
  lemma CapacityAfterSetStatus(jobs: map<Id, Job>, apps: map<Id, Application>, id: Id, st: AppStatus)
    requires id in apps && apps[id].jobId in jobs
    ensures Capacity(jobs, apps) && (st == ACCEPTED ==> AcceptedCount(apps, apps[id].jobId) < jobs[apps[id].jobId].workersNeeded)
      ==> Capacity(jobs, apps[id := apps[id].(status := st)])
  {
    if Capacity(jobs, apps) {
      if st == ACCEPTED {
        if AcceptedCount(apps, apps[id].jobId) < jobs[apps[id].jobId].workersNeeded {
          CapacityAfterAccept(jobs, apps, id);
        }
      } else {
        CapacityAfterRelease(jobs, apps, id, st);
      }
    }
  }

  /** Adding an application that is not ACCEPTED keeps the capacity rule. */
  lemma CapacityAfterInsert(jobs: map<Id, Job>, apps: map<Id, Application>, id: Id, a: Application)
    requires id !in apps
    ensures a.status != ACCEPTED && Capacity(jobs, apps) ==> Capacity(jobs, apps[id := a])
  {
    if a.status != ACCEPTED {
      forall j | j in jobs ensures AcceptedCount(apps[id := a], j) == AcceptedCount(apps, j) {
        AcceptedAfterInsert(apps, id, a, j);
      }
    }
  }

  /** A job nobody has applied to has no ACCEPTED application. */
  lemma AcceptedOfUnreferenced(apps: map<Id, Application>, j: Id)
    requires forall a :: a in apps ==> apps[a].jobId != j
    ensures AcceptedCount(apps, j) == 0
  {
    assert AcceptedOf(apps, j) == {};
  }

  /** Capacity is kept by every accept that the count check lets through:
      one more ACCEPTED application for a job that had fewer than
      `workersNeeded` still fits, and no other job's count moves. */
  lemma CapacityAfterAccept(jobs: map<Id, Job>, apps: map<Id, Application>, id: Id)
    requires Capacity(jobs, apps)
    requires id in apps && apps[id].jobId in jobs
    requires AcceptedCount(apps, apps[id].jobId) < jobs[apps[id].jobId].workersNeeded
    ensures Capacity(jobs, apps[id := apps[id].(status := ACCEPTED)])
  {
    var apps' := apps[id := apps[id].(status := ACCEPTED)];
    forall j | j in jobs
      ensures AcceptedCount(apps', j) <= Slots(jobs[j].workersNeeded)
    {
      AcceptedAfterSetStatus(apps, id, ACCEPTED, j);
    }
  }

  /** Moving an application to any status but ACCEPTED never raises a count. */
  lemma CapacityAfterRelease(jobs: map<Id, Job>, apps: map<Id, Application>, id: Id, st: AppStatus)
    requires Capacity(jobs, apps)
    requires id in apps && st != ACCEPTED
    ensures Capacity(jobs, apps[id := apps[id].(status := st)])
  {
    var apps' := apps[id := apps[id].(status := st)];
    forall j | j in jobs
      ensures AcceptedCount(apps', j) <= Slots(jobs[j].workersNeeded)
    {
      AcceptedAfterSetStatus(apps, id, st, j);
    }
  }

  /** Every profile's stored average rating is the one `updateAverageRating`
      would compute from the ratings table now. */
  ghost predicate AveragesCurrent(ratings: map<Id, Rating>, wp: map<Id, WorkerProfile>, fp: map<Id, FarmerProfile>)
  {
    && (forall u :: u in wp ==> wp[u].averageRating == Average(ratings, u, Bound(ratings)))
    && (forall u :: u in fp ==> fp[u].averageRating == Average(ratings, u, Bound(ratings)))
  }

  /** The same, for every user but `u`: what holds between a rating write
      for `u` and the refresh of `u`'s stored average. */
  ghost predicate AveragesCurrentExcept(ratings: map<Id, Rating>, wp: map<Id, WorkerProfile>, fp: map<Id, FarmerProfile>, u: Id)
  {
    && (forall v :: v in wp && v != u ==> wp[v].averageRating == Average(ratings, v, Bound(ratings)))
    && (forall v :: v in fp && v != u ==> fp[v].averageRating == Average(ratings, v, Bound(ratings)))
  }

  /** Two rating tables that hold the same rows for reviewee `v` give `v` the
      same average. */
  lemma AverageFrame(ratings: map<Id, Rating>, ratings': map<Id, Rating>, v: Id, n: nat)
    requires KeysBelow(ratings, n) && KeysBelow(ratings', n)
    requires forall k :: k in ratings && ratings[k].revieweeId == v ==> k in ratings' && ratings'[k] == ratings[k]
    requires forall k :: k in ratings' && ratings'[k].revieweeId == v ==> k in ratings && ratings[k] == ratings'[k]
    ensures Average(ratings', v, Bound(ratings')) == Average(ratings, v, Bound(ratings))
  {
    NewestFirstAll(ratings, ReceivedBy(v), n);
    NewestFirstAll(ratings', ReceivedBy(v), n);
    NewestFirstFrame(ratings, ReceivedBy(v), ratings', ReceivedBy(v), n);
    var ids := NewestFirst(ratings, ReceivedBy(v), n);
    assert Scores(ratings', ids) == Scores(ratings, ids);
  }

  /** A rating write that only touches rows for reviewee `u` leaves every
      other user's stored average current. */
  lemma AveragesAfterRatingWrite(ratings: map<Id, Rating>, ratings': map<Id, Rating>, wp: map<Id, WorkerProfile>, fp: map<Id, FarmerProfile>, u: Id, n: nat)
    requires KeysBelow(ratings, n) && KeysBelow(ratings', n)
    requires forall k :: k in ratings && ratings[k].revieweeId != u ==> k in ratings' && ratings'[k] == ratings[k]
    requires forall k :: k in ratings' && ratings'[k].revieweeId != u ==> k in ratings && ratings[k] == ratings'[k]
    ensures AveragesCurrent(ratings, wp, fp) ==> AveragesCurrentExcept(ratings', wp, fp, u)
  {
    if AveragesCurrent(ratings, wp, fp) {
      forall v | v != u
        ensures Average(ratings', v, Bound(ratings')) == Average(ratings, v, Bound(ratings))
      {
        AverageFrame(ratings, ratings', v, n);
      }
    }
  }

  /** The payment constraints survive a new row that passed the checks. */
  lemma PaymentsAfterInsert(payments: map<Id, Payment>, apps: map<Id, Application>, id: Id, p: Payment)
    requires PaymentsLinked(payments, apps) && OnePaymentPerApplication(payments) && PaymentsWellFormed(payments)
    requires id !in payments && p.applicationId in apps
    requires forall q :: q in payments ==> payments[q].applicationId != p.applicationId
    requires p.status == HELD_IN_ESCROW && p.releasedAt.None? && 0.0 < p.amount <= 1000000.0
    ensures var payments' := payments[id := p];
      PaymentsLinked(payments', apps) && OnePaymentPerApplication(payments') && PaymentsWellFormed(payments')
  {
  }

  /** ... and a row rewritten in place with the same application and amount. */
  lemma PaymentsAfterPut(payments: map<Id, Payment>, apps: map<Id, Application>, id: Id, p: Payment)
    requires PaymentsLinked(payments, apps) && OnePaymentPerApplication(payments) && PaymentsWellFormed(payments)
    requires id in payments
    requires p.applicationId == payments[id].applicationId && p.amount == payments[id].amount
    requires (p.status == HELD_IN_ESCROW || p.status == RELEASED) && (p.releasedAt.Some? <==> p.status == RELEASED)
    ensures var payments' := payments[id := p];
      PaymentsLinked(payments', apps) && OnePaymentPerApplication(payments') && PaymentsWellFormed(payments')
  {
  }

  /** The rating constraints survive a new rating between two distinct
      users with a score from 1 to 5, for a pair that had none. */
  lemma RatingsAfterInsert(ratings: map<Id, Rating>, users: map<Id, User>, id: Id, r: Rating)
    requires RatingsWellFormed(ratings, users) && OneRatingPerPair(ratings)
    requires id !in ratings && r.reviewerId in users && r.revieweeId in users
    requires r.reviewerId != r.revieweeId && 1 <= r.rating <= 5
    requires forall q :: q in ratings ==> !(ratings[q].reviewerId == r.reviewerId && ratings[q].revieweeId == r.revieweeId)
    ensures RatingsWellFormed(ratings[id := r], users) && OneRatingPerPair(ratings[id := r])
  {
  }

  /** ... and a rating rewritten in place for the same pair. */
  lemma RatingsAfterPut(ratings: map<Id, Rating>, users: map<Id, User>, id: Id, r: Rating)
    requires RatingsWellFormed(ratings, users) && OneRatingPerPair(ratings)
    requires id in ratings && r.reviewerId == ratings[id].reviewerId && r.revieweeId == ratings[id].revieweeId
    requires 1 <= r.rating <= 5
    ensures RatingsWellFormed(ratings[id := r], users) && OneRatingPerPair(ratings[id := r])
  {
  }

  /** Table `m'` is `m` with one row `v` added under the fresh id `id`. */
  ghost predicate Added<T>(m: map<Id, T>, m': map<Id, T>, id: Id, v: T)
  {
    id !in m && m'.Keys == m.Keys + {id} && m'[id] == v && forall k :: k in m ==> m'[k] == m[k]
  }

  /** Table `m'` is `m` with the row under `id` replaced by `v`. */
  ghost predicate Replaced<T>(m: map<Id, T>, m': map<Id, T>, id: Id, v: T)
  {
    id in m && m'.Keys == m.Keys && m'[id] == v && forall k :: k in m && k != id ==> m'[k] == m[k]
  }

  /** Table `m'` is `m` without the row under `id`. */
  ghost predicate Removed<T>(m: map<Id, T>, m': map<Id, T>, id: Id)
  {
    id in m && m'.Keys == m.Keys - {id} && forall k :: k in m' ==> m'[k] == m[k]
  }

  lemma AddedIs<T>(m: map<Id, T>, m': map<Id, T>, id: Id, v: T)
    requires Added(m, m', id, v)
    ensures m' == m[id := v]
  {
  }

  lemma ReplacedIs<T>(m: map<Id, T>, m': map<Id, T>, id: Id, v: T)
    requires Replaced(m, m', id, v)
    ensures m' == m[id := v]
  {
  }

  /** A user that no rating names has the average of no ratings, 0. */
  lemma AverageOfUnrated(ratings: map<Id, Rating>, u: Id)
    requires forall r :: r in ratings ==> ratings[r].revieweeId != u
    ensures Average(ratings, u, Bound(ratings)) == 0.0
  {
    NewestFirstNone(ratings, ReceivedBy(u), Bound(ratings));
    Round2Hundredths(0);
  }

  /** The tables of the store. */
  datatype Tables = Tables(
    users: map<Id, User>,
    workerProfiles: map<Id, WorkerProfile>,
    farmerProfiles: map<Id, FarmerProfile>,
    jobs: map<Id, Job>,
    applications: map<Id, Application>,
    payments: map<Id, Payment>,
    ratings: map<Id, Rating>,
    nextId: Id)
  {
    /** The constraints every handler keeps: ids below the next one, the
        foreign keys, the unique constraints and the row shapes. */
    ghost predicate Valid()
    {
      Consistent(users, workerProfiles, farmerProfiles, jobs, applications, payments, ratings, nextId)
    }

    ghost predicate CapacityHolds()
    {
      Capacity(jobs, applications)
    }

    ghost predicate AveragesHold()
    {
      AveragesCurrent(ratings, workerProfiles, farmerProfiles)
    }

    ghost predicate AveragesHoldExcept(u: Id)
    {
      AveragesCurrentExcept(ratings, workerProfiles, farmerProfiles, u)
    }

    ghost predicate ContactsHold()
    {
      ContactsUnique(users)
    }

    /** The request's token claims no role its user does not have: tokens
        are issued at signup and login with the user's own role, and no
        handler changes a role. A token can still outlive its user's row (the
        tables can be emptied behind a running server), and then the insert
        that names it as a foreign key fails. */
    ghost predicate RoleCurrent(c: Caller)
    {
      c.userId in users ==> users[c.userId].role == c.role
    }

    /** `application.create`: a new row under the next id. The foreign keys
        and the unique constraint on (jobId, workerId) are the store's own
        checks, which the handler has already made. */
    function InsertApplication(a: Application): (t: Tables)
      requires Valid() && a.jobId in jobs && a.workerId in workerProfiles
      requires forall b :: b in applications ==> !(applications[b].jobId == a.jobId && applications[b].workerId == a.workerId)
      ensures t.Valid()
      ensures a.status != ACCEPTED && CapacityHolds() ==> t.CapacityHolds()
      ensures AveragesHold() ==> t.AveragesHold()
      ensures Added(applications, t.applications, nextId, a) && t.nextId == nextId + 1
      ensures t.(applications := applications, nextId := nextId) == this
    {
      InsertApplicationValid(this, a);
      InsertApplicationEffect(this, a);
      this.(applications := applications[nextId := a], nextId := nextId + 1)
    }

    /** `application.update` of the status column. Capacity is kept by any
        status but ACCEPTED, and by an accept into a job that still had a
        free place. */
    function SetApplicationStatus(id: Id, st: AppStatus): (t: Tables)
      requires Valid() && id in applications
      ensures t.Valid()
      ensures CapacityHolds() && (st == ACCEPTED ==>
        AcceptedCount(applications, applications[id].jobId) < jobs[applications[id].jobId].workersNeeded)
        ==> t.CapacityHolds()
      ensures AveragesHold() ==> t.AveragesHold()
      ensures Replaced(applications, t.applications, id, applications[id].(status := st))
      ensures t.(applications := applications) == this
    {
      SetApplicationStatusValid(this, id, st);
      SetApplicationStatusEffect(this, id, st);
      this.(applications := applications[id := applications[id].(status := st)])
    }

    /** `job.create`: a new row under the next id, owned by a farmer. No
        application refers to it yet. */
    function InsertJob(job: Job): (t: Tables)
      requires Valid() && job.farmerId in farmerProfiles
      ensures t.Valid()
      ensures CapacityHolds() ==> t.CapacityHolds()
      ensures AveragesHold() ==> t.AveragesHold()
      ensures Added(jobs, t.jobs, nextId, job) && t.nextId == nextId + 1
      ensures AcceptedCount(t.applications, nextId) == 0
      ensures t.(jobs := jobs, nextId := nextId) == this
    {
      InsertJobValid(this, job);
      InsertJobEffect(this, job);
      this.(jobs := jobs[nextId := job], nextId := nextId + 1)
    }

    /** `job.update` of a whole row; the owner stays a farmer. Capacity is
        kept exactly when the job's ACCEPTED applications still fit its
        (new) number of places. */
    function PutJob(j: Id, job: Job): (t: Tables)
      requires Valid() && j in jobs && job.farmerId in farmerProfiles
      ensures t.Valid()
      ensures CapacityHolds() ==> (t.CapacityHolds() <==> AcceptedCount(applications, j) <= Slots(job.workersNeeded))
      ensures AveragesHold() ==> t.AveragesHold()
      ensures Replaced(jobs, t.jobs, j, job)
      ensures t.(jobs := jobs) == this
    {
      PutJobValid(this, j, job);
      PutJobEffect(this, j, job);
      this.(jobs := jobs[j := job])
    }

    /** `job.delete` of a row that no application refers to (the store
        refuses to delete a row that others refer to). */
    function DeleteJob(j: Id): (t: Tables)
      requires Valid() && j in jobs
      requires forall a :: a in applications ==> applications[a].jobId != j
      ensures t.Valid()
      ensures CapacityHolds() ==> t.CapacityHolds()
      ensures AveragesHold() ==> t.AveragesHold()
      ensures Removed(jobs, t.jobs, j)
      ensures t.(jobs := jobs) == this
    {
      DeleteJobValid(this, j);
      DeleteJobEffect(this, j);
      this.(jobs := jobs - {j})
    }

    /** `payment.create`: a new held payment, under the next id, for an
        application that has none (the unique constraint on applicationId). */
    function InsertPayment(p: Payment): (t: Tables)
      requires Valid() && p.applicationId in applications
      requires forall q :: q in payments ==> payments[q].applicationId != p.applicationId
      requires p.status == HELD_IN_ESCROW && p.releasedAt.None? && 0.0 < p.amount <= 1000000.0
      ensures t.Valid()
      ensures CapacityHolds() ==> t.CapacityHolds()
      ensures AveragesHold() ==> t.AveragesHold()
      ensures Added(payments, t.payments, nextId, p) && t.nextId == nextId + 1
      ensures t.(payments := payments, nextId := nextId) == this
    {
      InsertPaymentValid(this, p);
      InsertPaymentEffect(this, p);
      this.(payments := payments[nextId := p], nextId := nextId + 1)
    }

    /** `payment.update` of the status and release time of a row, which keeps
        its application and amount. */
    function PutPayment(id: Id, p: Payment): (t: Tables)
      requires Valid() && id in payments
      requires p.applicationId == payments[id].applicationId && p.amount == payments[id].amount
      requires (p.status == HELD_IN_ESCROW || p.status == RELEASED) && (p.releasedAt.Some? <==> p.status == RELEASED)
      ensures t.Valid()
      ensures CapacityHolds() ==> t.CapacityHolds()
      ensures AveragesHold() ==> t.AveragesHold()
      ensures Replaced(payments, t.payments, id, p)
      ensures t.(payments := payments) == this
    {
      PutPaymentValid(this, id, p);
      PutPaymentEffect(this, id, p);
      this.(payments := payments[id := p])
    }

    /** `workerProfile.update` of a whole row. The stored averages stay
        current unless the row's average changes. */
    function PutWorkerProfile(u: Id, p: WorkerProfile): (t: Tables)
      requires Valid() && u in workerProfiles
      ensures t.Valid()
      ensures CapacityHolds() ==> t.CapacityHolds()
      ensures AveragesHold() && p.averageRating == workerProfiles[u].averageRating ==> t.AveragesHold()
      ensures Replaced(workerProfiles, t.workerProfiles, u, p)
      ensures t.(workerProfiles := workerProfiles) == this
    {
      PutWorkerProfileValid(this, u, p);
      PutWorkerProfileEffect(this, u, p);
      this.(workerProfiles := workerProfiles[u := p])
    }

    /** `farmerProfile.update` of a whole row. */
    function PutFarmerProfile(u: Id, p: FarmerProfile): (t: Tables)
      requires Valid() && u in farmerProfiles
      ensures t.Valid()
      ensures CapacityHolds() ==> t.CapacityHolds()
      ensures AveragesHold() && p.averageRating == farmerProfiles[u].averageRating ==> t.AveragesHold()
      ensures Replaced(farmerProfiles, t.farmerProfiles, u, p)
      ensures t.(farmerProfiles := farmerProfiles) == this
    {
      PutFarmerProfileValid(this, u, p);
      PutFarmerProfileEffect(this, u, p);
      this.(farmerProfiles := farmerProfiles[u := p])
    }

    /** `rating.create`: a new rating under the next id, for a pair of
        distinct users that has none (the unique constraint on
        (reviewerId, revieweeId)). */
    function InsertRating(r: Rating): (t: Tables)
      requires Valid() && r.reviewerId in users && r.revieweeId in users
      requires r.reviewerId != r.revieweeId && 1 <= r.rating <= 5
      requires forall q :: q in ratings ==> !(ratings[q].reviewerId == r.reviewerId && ratings[q].revieweeId == r.revieweeId)
      ensures t.Valid()
      ensures CapacityHolds() ==> t.CapacityHolds()
      ensures AveragesHold() ==> t.AveragesHoldExcept(r.revieweeId)
      ensures Added(ratings, t.ratings, nextId, r) && t.nextId == nextId + 1
      ensures t.(ratings := ratings, nextId := nextId) == this
    {
      InsertRatingValid(this, r);
      InsertRatingEffect(this, r);
      this.(ratings := ratings[nextId := r], nextId := nextId + 1)
    }

    /** `rating.update` of a rating in place, for the same pair. */
    function PutRating(id: Id, r: Rating): (t: Tables)
      requires Valid() && id in ratings
      requires r.reviewerId == ratings[id].reviewerId && r.revieweeId == ratings[id].revieweeId && 1 <= r.rating <= 5
      ensures t.Valid()
      ensures CapacityHolds() ==> t.CapacityHolds()
      ensures AveragesHold() ==> t.AveragesHoldExcept(r.revieweeId)
      ensures Replaced(ratings, t.ratings, id, r)
      ensures t.(ratings := ratings) == this
    {
      PutRatingValid(this, id, r);
      PutRatingEffect(this, id, r);
      this.(ratings := ratings[id := r])
    }

    /** `rating.delete`. */
    function DeleteRating(id: Id): (t: Tables)
      requires Valid() && id in ratings
      ensures t.Valid()
      ensures CapacityHolds() ==> t.CapacityHolds()
      ensures AveragesHold() ==> t.AveragesHoldExcept(ratings[id].revieweeId)
      ensures Removed(ratings, t.ratings, id)
      ensures t.(ratings := ratings) == this
    {
      DeleteRatingValid(this, id);
      DeleteRatingEffect(this, id);
      this.(ratings := ratings - {id})
    }

    /** No stored user has this phone number, nor this e-mail address when
        one is given. */
    ghost predicate ContactsFree(phone: string, email: Option<string>, except: Option<Id>)
    {
      forall v :: v in users && Some(v) != except ==>
        users[v].phone != phone && (email.None? || users[v].email != email)
    }

    /** The signup transaction for a worker: the user row and its worker
        profile, under the same new id. */
    function InsertWorker(u: User, p: WorkerProfile): (t: Tables)
      requires Valid() && u.role == WORKER
      requires ContactsFree(u.phone, u.email, None)
      ensures t.Valid()
      ensures ContactsHold() ==> t.ContactsHold()
      ensures CapacityHolds() ==> t.CapacityHolds()
      ensures AveragesHold() && p.averageRating == 0.0 ==> t.AveragesHold()
      ensures Added(users, t.users, nextId, u) && Added(workerProfiles, t.workerProfiles, nextId, p)
      ensures t.nextId == nextId + 1
      ensures t.(users := users, workerProfiles := workerProfiles, nextId := nextId) == this
    {
      InsertWorkerValid(this, u, p);
      InsertWorkerEffect(this, u, p);
      this.(users := users[nextId := u], workerProfiles := workerProfiles[nextId := p], nextId := nextId + 1)
    }

    /** The signup transaction for a farmer. */
    function InsertFarmer(u: User, p: FarmerProfile): (t: Tables)
      requires Valid() && u.role == FARMER
      requires ContactsFree(u.phone, u.email, None)
      ensures t.Valid()
      ensures ContactsHold() ==> t.ContactsHold()
      ensures CapacityHolds() ==> t.CapacityHolds()
      ensures AveragesHold() && p.averageRating == 0.0 ==> t.AveragesHold()
      ensures Added(users, t.users, nextId, u) && Added(farmerProfiles, t.farmerProfiles, nextId, p)
      ensures t.nextId == nextId + 1
      ensures t.(users := users, farmerProfiles := farmerProfiles, nextId := nextId) == this
    {
      InsertFarmerValid(this, u, p);
      InsertFarmerEffect(this, u, p);
      this.(users := users[nextId := u], farmerProfiles := farmerProfiles[nextId := p], nextId := nextId + 1)
    }

    /** `user.update` of a whole row, which keeps its role; the phone and
        e-mail must not be another user's (the unique constraints). */
    function PutUser(id: Id, u: User): (t: Tables)
      requires Valid() && id in users && u.role == users[id].role
      requires ContactsFree(u.phone, u.email, Some(id))
      ensures t.Valid()
      ensures ContactsHold() ==> t.ContactsHold()
      ensures CapacityHolds() ==> t.CapacityHolds()
      ensures AveragesHold() ==> t.AveragesHold()
      ensures Replaced(users, t.users, id, u)
      ensures t.(users := users) == this
    {
      PutUserValid(this, id, u);
      PutUserEffect(this, id, u);
      this.(users := users[id := u])
    }
  }

  // -----------------------------------------------------------------------
  // The proofs of the row writes. For each write, one lemma shows that the
  // new tables satisfy `Valid` and one states the write's effect (the rows
  // it adds, replaces or removes, and what it keeps of the capacity rule,
  // the stored averages and the unique contacts). They are kept apart from
  // the writes so that each proof has only the facts it needs in scope.

  lemma InsertApplicationValid(db: Tables, a: Application)
    requires db.Valid() && a.jobId in db.jobs && a.workerId in db.workerProfiles
    requires forall b :: b in db.applications ==> !(db.applications[b].jobId == a.jobId && db.applications[b].workerId == a.workerId)
    ensures db.(applications := db.applications[db.nextId := a], nextId := db.nextId + 1).Valid()
  {
  }

  lemma InsertApplicationEffect(db: Tables, a: Application)
    requires db.nextId !in db.applications
    ensures var t := db.(applications := db.applications[db.nextId := a], nextId := db.nextId + 1);
      && (a.status != ACCEPTED && db.CapacityHolds() ==> t.CapacityHolds())
      && (db.AveragesHold() ==> t.AveragesHold())
      && Added(db.applications, t.applications, db.nextId, a) && t.nextId == db.nextId + 1
      && t.(applications := db.applications, nextId := db.nextId) == db
  {
    CapacityAfterInsert(db.jobs, db.applications, db.nextId, a);
  }

  lemma SetApplicationStatusValid(db: Tables, id: Id, st: AppStatus)
    requires db.Valid() && id in db.applications
    ensures db.(applications := db.applications[id := db.applications[id].(status := st)]).Valid()
  {
  }

  lemma SetApplicationStatusEffect(db: Tables, id: Id, st: AppStatus)
    requires id in db.applications && db.applications[id].jobId in db.jobs
    ensures var t := db.(applications := db.applications[id := db.applications[id].(status := st)]);
      && (db.CapacityHolds() && (st == ACCEPTED ==>
            AcceptedCount(db.applications, db.applications[id].jobId) < db.jobs[db.applications[id].jobId].workersNeeded)
          ==> t.CapacityHolds())
      && (db.AveragesHold() ==> t.AveragesHold())
      && Replaced(db.applications, t.applications, id, db.applications[id].(status := st))
      && t.(applications := db.applications) == db
  {
    CapacityAfterSetStatus(db.jobs, db.applications, id, st);
  }

  lemma InsertJobValid(db: Tables, job: Job)
    requires db.Valid() && job.farmerId in db.farmerProfiles
    ensures db.(jobs := db.jobs[db.nextId := job], nextId := db.nextId + 1).Valid()
  {
  }

  lemma InsertJobEffect(db: Tables, job: Job)
    requires db.nextId !in db.jobs
    requires forall a :: a in db.applications ==> db.applications[a].jobId != db.nextId
    ensures var t := db.(jobs := db.jobs[db.nextId := job], nextId := db.nextId + 1);
      && (db.CapacityHolds() ==> t.CapacityHolds())
      && (db.AveragesHold() ==> t.AveragesHold())
      && Added(db.jobs, t.jobs, db.nextId, job) && t.nextId == db.nextId + 1
      && AcceptedCount(t.applications, db.nextId) == 0
      && t.(jobs := db.jobs, nextId := db.nextId) == db
  {
    AcceptedOfUnreferenced(db.applications, db.nextId);
  }

  lemma PutJobValid(db: Tables, j: Id, job: Job)
    requires db.Valid() && j in db.jobs && job.farmerId in db.farmerProfiles
    ensures db.(jobs := db.jobs[j := job]).Valid()
  {
  }

  lemma PutJobEffect(db: Tables, j: Id, job: Job)
    requires j in db.jobs
    ensures var t := db.(jobs := db.jobs[j := job]);
      && (db.CapacityHolds() ==> (t.CapacityHolds() <==> AcceptedCount(db.applications, j) <= Slots(job.workersNeeded)))
      && (db.AveragesHold() ==> t.AveragesHold())
      && Replaced(db.jobs, t.jobs, j, job)
      && t.(jobs := db.jobs) == db
  {
  }

  lemma DeleteJobValid(db: Tables, j: Id)
    requires db.Valid() && j in db.jobs
    requires forall a :: a in db.applications ==> db.applications[a].jobId != j
    ensures db.(jobs := db.jobs - {j}).Valid()
  {
  }

  lemma DeleteJobEffect(db: Tables, j: Id)
    requires j in db.jobs
    ensures var t := db.(jobs := db.jobs - {j});
      && (db.CapacityHolds() ==> t.CapacityHolds())
      && (db.AveragesHold() ==> t.AveragesHold())
      && Removed(db.jobs, t.jobs, j)
      && t.(jobs := db.jobs) == db
  {
  }

  lemma InsertPaymentValid(db: Tables, p: Payment)
    requires db.Valid() && p.applicationId in db.applications
    requires forall q :: q in db.payments ==> db.payments[q].applicationId != p.applicationId
    requires p.status == HELD_IN_ESCROW && p.releasedAt.None? && 0.0 < p.amount <= 1000000.0
    ensures db.(payments := db.payments[db.nextId := p], nextId := db.nextId + 1).Valid()
  {
    PaymentsAfterInsert(db.payments, db.applications, db.nextId, p);
  }

  lemma InsertPaymentEffect(db: Tables, p: Payment)
    requires db.nextId !in db.payments
    ensures var t := db.(payments := db.payments[db.nextId := p], nextId := db.nextId + 1);
      && (db.CapacityHolds() ==> t.CapacityHolds())
      && (db.AveragesHold() ==> t.AveragesHold())
      && Added(db.payments, t.payments, db.nextId, p) && t.nextId == db.nextId + 1
      && t.(payments := db.payments, nextId := db.nextId) == db
  {
  }

  lemma PutPaymentValid(db: Tables, id: Id, p: Payment)
    requires db.Valid() && id in db.payments
    requires p.applicationId == db.payments[id].applicationId && p.amount == db.payments[id].amount
    requires (p.status == HELD_IN_ESCROW || p.status == RELEASED) && (p.releasedAt.Some? <==> p.status == RELEASED)
    ensures db.(payments := db.payments[id := p]).Valid()
  {
    PaymentsAfterPut(db.payments, db.applications, id, p);
  }

  lemma PutPaymentEffect(db: Tables, id: Id, p: Payment)
    requires id in db.payments
    ensures var t := db.(payments := db.payments[id := p]);
      && (db.CapacityHolds() ==> t.CapacityHolds())
      && (db.AveragesHold() ==> t.AveragesHold())
      && Replaced(db.payments, t.payments, id, p)
      && t.(payments := db.payments) == db
  {
  }

  lemma PutWorkerProfileValid(db: Tables, u: Id, p: WorkerProfile)
    requires db.Valid() && u in db.workerProfiles
    ensures db.(workerProfiles := db.workerProfiles[u := p]).Valid()
  {
  }

  lemma PutWorkerProfileEffect(db: Tables, u: Id, p: WorkerProfile)
    requires u in db.workerProfiles
    ensures var t := db.(workerProfiles := db.workerProfiles[u := p]);
      && (db.CapacityHolds() ==> t.CapacityHolds())
      && (db.AveragesHold() && p.averageRating == db.workerProfiles[u].averageRating ==> t.AveragesHold())
      && Replaced(db.workerProfiles, t.workerProfiles, u, p)
      && t.(workerProfiles := db.workerProfiles) == db
  {
  }

  lemma PutFarmerProfileValid(db: Tables, u: Id, p: FarmerProfile)
    requires db.Valid() && u in db.farmerProfiles
    ensures db.(farmerProfiles := db.farmerProfiles[u := p]).Valid()
  {
  }

  lemma PutFarmerProfileEffect(db: Tables, u: Id, p: FarmerProfile)
    requires u in db.farmerProfiles
    ensures var t := db.(farmerProfiles := db.farmerProfiles[u := p]);
      && (db.CapacityHolds() ==> t.CapacityHolds())
      && (db.AveragesHold() && p.averageRating == db.farmerProfiles[u].averageRating ==> t.AveragesHold())
      && Replaced(db.farmerProfiles, t.farmerProfiles, u, p)
      && t.(farmerProfiles := db.farmerProfiles) == db
  {
  }

  lemma InsertRatingValid(db: Tables, r: Rating)
    requires db.Valid() && r.reviewerId in db.users && r.revieweeId in db.users
    requires r.reviewerId != r.revieweeId && 1 <= r.rating <= 5
    requires forall q :: q in db.ratings ==> !(db.ratings[q].reviewerId == r.reviewerId && db.ratings[q].revieweeId == r.revieweeId)
    ensures db.(ratings := db.ratings[db.nextId := r], nextId := db.nextId + 1).Valid()
  {
    RatingsAfterInsert(db.ratings, db.users, db.nextId, r);
  }

  lemma InsertRatingEffect(db: Tables, r: Rating)
    requires KeysBelow(db.ratings, db.nextId)
    ensures var t := db.(ratings := db.ratings[db.nextId := r], nextId := db.nextId + 1);
      && (db.CapacityHolds() ==> t.CapacityHolds())
      && (db.AveragesHold() ==> t.AveragesHoldExcept(r.revieweeId))
      && Added(db.ratings, t.ratings, db.nextId, r) && t.nextId == db.nextId + 1
      && t.(ratings := db.ratings, nextId := db.nextId) == db
  {
    AveragesAfterRatingWrite(db.ratings, db.ratings[db.nextId := r], db.workerProfiles, db.farmerProfiles, r.revieweeId, db.nextId + 1);
  }

  lemma PutRatingValid(db: Tables, id: Id, r: Rating)
    requires db.Valid() && id in db.ratings
    requires r.reviewerId == db.ratings[id].reviewerId && r.revieweeId == db.ratings[id].revieweeId && 1 <= r.rating <= 5
    ensures db.(ratings := db.ratings[id := r]).Valid()
  {
    RatingsAfterPut(db.ratings, db.users, id, r);
  }

  lemma PutRatingEffect(db: Tables, id: Id, r: Rating)
    requires KeysBelow(db.ratings, db.nextId) && id in db.ratings && r.revieweeId == db.ratings[id].revieweeId
    ensures var t := db.(ratings := db.ratings[id := r]);
      && (db.CapacityHolds() ==> t.CapacityHolds())
      && (db.AveragesHold() ==> t.AveragesHoldExcept(r.revieweeId))
      && Replaced(db.ratings, t.ratings, id, r)
      && t.(ratings := db.ratings) == db
  {
    AveragesAfterRatingWrite(db.ratings, db.ratings[id := r], db.workerProfiles, db.farmerProfiles, r.revieweeId, db.nextId);
  }

  lemma DeleteRatingValid(db: Tables, id: Id)
    requires db.Valid() && id in db.ratings
    ensures db.(ratings := db.ratings - {id}).Valid()
  {
  }

  lemma DeleteRatingEffect(db: Tables, id: Id)
    requires KeysBelow(db.ratings, db.nextId) && id in db.ratings
    ensures var t := db.(ratings := db.ratings - {id});
      && (db.CapacityHolds() ==> t.CapacityHolds())
      && (db.AveragesHold() ==> t.AveragesHoldExcept(db.ratings[id].revieweeId))
      && Removed(db.ratings, t.ratings, id)
      && t.(ratings := db.ratings) == db
  {
    AveragesAfterRatingWrite(db.ratings, db.ratings - {id}, db.workerProfiles, db.farmerProfiles, db.ratings[id].revieweeId, db.nextId);
  }

  lemma InsertWorkerValid(db: Tables, u: User, p: WorkerProfile)
    requires db.Valid() && u.role == WORKER
    ensures db.(users := db.users[db.nextId := u], workerProfiles := db.workerProfiles[db.nextId := p], nextId := db.nextId + 1).Valid()
  {
  }

  lemma InsertWorkerEffect(db: Tables, u: User, p: WorkerProfile)
    requires db.ContactsFree(u.phone, u.email, None)
    requires db.nextId !in db.users && db.nextId !in db.workerProfiles
    requires forall r :: r in db.ratings ==> db.ratings[r].revieweeId != db.nextId
    ensures var t := db.(users := db.users[db.nextId := u], workerProfiles := db.workerProfiles[db.nextId := p], nextId := db.nextId + 1);
      && (db.ContactsHold() ==> t.ContactsHold())
      && (db.CapacityHolds() ==> t.CapacityHolds())
      && (db.AveragesHold() && p.averageRating == 0.0 ==> t.AveragesHold())
      && Added(db.users, t.users, db.nextId, u) && Added(db.workerProfiles, t.workerProfiles, db.nextId, p)
      && t.nextId == db.nextId + 1
      && t.(users := db.users, workerProfiles := db.workerProfiles, nextId := db.nextId) == db
  {
    AverageOfUnrated(db.ratings, db.nextId);
  }

  lemma InsertFarmerValid(db: Tables, u: User, p: FarmerProfile)
    requires db.Valid() && u.role == FARMER
    ensures db.(users := db.users[db.nextId := u], farmerProfiles := db.farmerProfiles[db.nextId := p], nextId := db.nextId + 1).Valid()
  {
  }

  lemma InsertFarmerEffect(db: Tables, u: User, p: FarmerProfile)
    requires db.ContactsFree(u.phone, u.email, None)
    requires db.nextId !in db.users && db.nextId !in db.farmerProfiles
    requires forall r :: r in db.ratings ==> db.ratings[r].revieweeId != db.nextId
    ensures var t := db.(users := db.users[db.nextId := u], farmerProfiles := db.farmerProfiles[db.nextId := p], nextId := db.nextId + 1);
      && (db.ContactsHold() ==> t.ContactsHold())
      && (db.CapacityHolds() ==> t.CapacityHolds())
      && (db.AveragesHold() && p.averageRating == 0.0 ==> t.AveragesHold())
      && Added(db.users, t.users, db.nextId, u) && Added(db.farmerProfiles, t.farmerProfiles, db.nextId, p)
      && t.nextId == db.nextId + 1
      && t.(users := db.users, farmerProfiles := db.farmerProfiles, nextId := db.nextId) == db
  {
    AverageOfUnrated(db.ratings, db.nextId);
  }

  lemma PutUserValid(db: Tables, id: Id, u: User)
    requires db.Valid() && id in db.users && u.role == db.users[id].role
    ensures db.(users := db.users[id := u]).Valid()
  {
  }

  lemma PutUserEffect(db: Tables, id: Id, u: User)
    requires id in db.users && db.ContactsFree(u.phone, u.email, Some(id))
    ensures var t := db.(users := db.users[id := u]);
      && (db.ContactsHold() ==> t.ContactsHold())
      && (db.CapacityHolds() ==> t.CapacityHolds())
      && (db.AveragesHold() ==> t.AveragesHold())
      && Replaced(db.users, t.users, id, u)
      && t.(users := db.users) == db
  {
  }

  /** The mutable store: the one object every handler reads and writes. */
  class Store {
    var db: Tables

    /** An empty store. */
    constructor ()
      ensures db.Valid() && db.CapacityHolds() && db.AveragesHold() && db.ContactsHold()
      ensures db == Tables(map[], map[], map[], map[], map[], map[], map[], 0)
    {
      db := Tables(map[], map[], map[], map[], map[], map[], map[], 0);
    }
  }
}
