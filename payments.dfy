/** The payment controller: the farmer of a job puts the agreed wage for an
    accepted application in escrow, later releases it to the worker, and the
    two parties read it. */
module Payments {
  import opened Common
  import opened Schema
  import opened Ledger

  /** The ceiling on one payment, in rupees. */
  const MAX_AMOUNT: real := 1000000.0

  function Abs(x: real): (y: real)
    ensures y >= 0.0 && (y == x || y == -x)
  {
    if x < 0.0 then -x else x
  }

  /** What the job's terms say the payment must be: a day's wage times the
      number of days. */
  function Expected(job: Job): real
  {
    job.wagePerDay * job.duration as real
  }

  /** The request's amount, once the field is present and `parseFloat` of it
      is a positive number no larger than the ceiling; with the message for
      the first check that fails. */
  function CheckAmount(applicationId: Option<Id>, amount: Arg<real>): (r: Reply<real>)
    ensures r.Ok? <==> (applicationId.Some? && amount.Truthy? && amount.parsed.Value?
      && 0.0 < amount.parsed.v <= MAX_AMOUNT)
    ensures r.Ok? ==> r.value == amount.parsed.v
    ensures r.Fail? ==> r.code == 400
    ensures applicationId.None? || amount.Falsy? ==> r == Fail(400, Msg("Application ID and amount are required"))
  {
    if applicationId.None? || amount.Falsy? then Fail(400, Msg("Application ID and amount are required"))
    else if amount.parsed.NaN? || amount.parsed.v <= 0.0 then Fail(400, Msg("Amount must be a positive number"))
    else if amount.parsed.v > MAX_AMOUNT then Fail(400, Msg("Amount cannot exceed \U{20B9}10,00,000"))
    else Ok(200, amount.parsed.v)
  }

  /** Whether the application already has a payment (its `payment` relation). */
  predicate HasPayment(payments: map<Id, Payment>, a: Id)
  {
    exists p :: p in payments && payments[p].applicationId == a
  }

  /** The checks `createPayment` makes on the application, after the amount. */
  predicate MayPay(db: Tables, caller: Caller, a: Id, amount: real)
    requires db.Valid()
  {
    && a in db.applications
    && db.jobs[db.applications[a].jobId].farmerId == caller.userId
    && db.applications[a].status == ACCEPTED
    && !HasPayment(db.payments, a)
    && Abs(amount - Expected(db.jobs[db.applications[a].jobId])) <= 0.01
  }

  /** `POST /payments`: the job's farmer puts the wage for an accepted
      application in escrow, once per application. */
  method CreatePayment(s: Store, caller: Option<Caller>, applicationId: Option<Id>, amount: Arg<real>) returns (r: Reply<Id>)
    requires s.db.Valid()
    modifies s
    ensures s.db.Valid()
    ensures old(s.db.CapacityHolds()) ==> s.db.CapacityHolds()
    ensures old(s.db.AveragesHold()) ==> s.db.AveragesHold()
    ensures caller.None? ==> r == Fail(401, UNAUTHORIZED)
    ensures caller.Some? && caller.value.role != FARMER ==> r == Fail(403, Msg("Only farmers can create payments"))
    ensures caller.Some? && caller.value.role == FARMER && CheckAmount(applicationId, amount).Fail? ==>
      r == Fail(400, CheckAmount(applicationId, amount).error)
    ensures (caller.Some? && caller.value.role == FARMER && CheckAmount(applicationId, amount).Ok?
      && applicationId.value !in old(s.db.applications)) ==> r == Fail(404, Msg("Application not found"))
    ensures (caller.Some? && caller.value.role == FARMER && CheckAmount(applicationId, amount).Ok?
      && applicationId.value in old(s.db.applications)) ==>
      var app := old(s.db.applications)[applicationId.value];
      var job := old(s.db.jobs)[app.jobId];
      && (job.farmerId != caller.value.userId ==> r == Fail(403, Msg("You can only create payments for your own jobs")))
      && (job.farmerId == caller.value.userId && app.status != ACCEPTED ==>
            r == Fail(400, Msg("Can only create payment for accepted applications")))
      && (job.farmerId == caller.value.userId && app.status == ACCEPTED && HasPayment(old(s.db.payments), applicationId.value) ==>
            r == Fail(400, Msg("Payment already exists for this application")))
      && ((job.farmerId == caller.value.userId && app.status == ACCEPTED && !HasPayment(old(s.db.payments), applicationId.value)
           && Abs(amount.parsed.v - Expected(job)) > 0.01) ==> r == Fail(400, AmountMismatch(Expected(job), job.wagePerDay, job.duration)))
    ensures r.Ok? <==> (caller.Some? && caller.value.role == FARMER && CheckAmount(applicationId, amount).Ok?
      && MayPay(old(s.db), caller.value, applicationId.value, amount.parsed.v))
    ensures r.Fail? ==> unchanged(s)
    ensures r.Ok? ==>
      r == Ok(201, old(s.db.nextId)) && s.db == old(s.db).InsertPayment(Payment(applicationId.value, amount.parsed.v, HELD_IN_ESCROW, None))
  {
    if caller.None? {
      return Fail(401, UNAUTHORIZED);
    }
    if caller.value.role != FARMER {
      return Fail(403, Msg("Only farmers can create payments"));
    }
    var parsed := CheckAmount(applicationId, amount);
    if parsed.Fail? {
      return Fail(parsed.code, parsed.error);
    }
    var a := applicationId.value;
    if a !in s.db.applications {
      return Fail(404, Msg("Application not found"));
    }
    var app := s.db.applications[a];
    var job := s.db.jobs[app.jobId];
    if job.farmerId != caller.value.userId {
      return Fail(403, Msg("You can only create payments for your own jobs"));
    }
    if app.status != ACCEPTED {
      return Fail(400, Msg("Can only create payment for accepted applications"));
    }
    if HasPayment(s.db.payments, a) {
      return Fail(400, Msg("Payment already exists for this application"));
    }
    var expectedAmount := Expected(job);
    if Abs(parsed.value - expectedAmount) > 0.01 {
      return Fail(400, AmountMismatch(expectedAmount, job.wagePerDay, job.duration));
    }
    r := Ok(201, s.db.nextId);
    s.db := s.db.InsertPayment(Payment(a, parsed.value, HELD_IN_ESCROW, None));
  }

  /** A second payment for the same application is refused: once created,
      the application has its payment. */
  lemma PaymentOnce(db: Tables, caller: Caller, p: Payment)
    requires db.Valid() && p.applicationId in db.applications
    requires !HasPayment(db.payments, p.applicationId)
    requires p.status == HELD_IN_ESCROW && p.releasedAt.None? && 0.0 < p.amount <= MAX_AMOUNT
    ensures !MayPay(db.InsertPayment(p), caller, p.applicationId, p.amount)
  {
    var t := db.InsertPayment(p);
    assert t.payments[db.nextId] == p;
  }

  /** The payment owner: the farmer of the job the payment's application is for. */
  function PayerOf(db: Tables, id: Id): Id
    requires db.Valid() && id in db.payments
  {
    db.jobs[db.applications[db.payments[id].applicationId].jobId].farmerId
  }

  /** The worker's side of a release: `totalEarnings` grows by the amount
      and `totalJobs` by one. */
  function Credited(wp: WorkerProfile, amount: real): (r: WorkerProfile)
    ensures r.averageRating == wp.averageRating
  {
    wp.(totalEarnings := wp.totalEarnings + amount, totalJobs := wp.totalJobs + 1)
  }

  /** The farmer's side of a release: `totalSpent` grows by the amount. */
  function Debited(fp: FarmerProfile, amount: real): (r: FarmerProfile)
    ensures r.averageRating == fp.averageRating
  {
    fp.(totalSpent := fp.totalSpent + amount)
  }

  /** The release transaction: the payment is RELEASED at `now`, its
      application COMPLETED, the worker credited with the amount and one more
      job, and the farmer debited with the amount. Nothing else changes. */
  function Released(db: Tables, id: Id, now: Timestamp): (t: Tables)
    requires db.Valid() && id in db.payments && db.payments[id].status == HELD_IN_ESCROW
    ensures t.Valid()
    ensures db.CapacityHolds() ==> t.CapacityHolds()
    ensures db.AveragesHold() ==> t.AveragesHold()
    ensures var p := db.payments[id];
      var a := p.applicationId;
      var w := db.applications[a].workerId;
      var f := PayerOf(db, id);
      && Replaced(db.payments, t.payments, id, p.(status := RELEASED, releasedAt := Some(now)))
      && Replaced(db.applications, t.applications, a, db.applications[a].(status := AppStatus.COMPLETED))
      && Replaced(db.workerProfiles, t.workerProfiles, w, Credited(db.workerProfiles[w], p.amount))
      && Replaced(db.farmerProfiles, t.farmerProfiles, f, Debited(db.farmerProfiles[f], p.amount))
    ensures t.users == db.users && t.jobs == db.jobs && t.ratings == db.ratings && t.nextId == db.nextId
  {
    var p := db.payments[id];
    var app := db.applications[p.applicationId];
    var f := db.jobs[app.jobId].farmerId;
    var t1 := db.PutPayment(id, p.(status := RELEASED, releasedAt := Some(now)));
    var t2 := t1.SetApplicationStatus(p.applicationId, AppStatus.COMPLETED);
    var t3 := t2.PutWorkerProfile(app.workerId, Credited(t2.workerProfiles[app.workerId], p.amount));
    t3.PutFarmerProfile(f, Debited(t3.farmerProfiles[f], p.amount))
  }

  /** The checks `releasePayment` makes before its transaction. */
  predicate MayRelease(db: Tables, caller: Option<Caller>, id: Id)
    requires db.Valid()
  {
    && caller.Some? && caller.value.role == FARMER
    && id in db.payments && PayerOf(db, id) == caller.value.userId
    && db.payments[id].status == HELD_IN_ESCROW
  }

  /** `POST /payments/:id/release`: the job's farmer releases a held payment;
      the four writes of the transaction happen together. */
  method ReleasePayment(s: Store, caller: Option<Caller>, id: Id, now: Timestamp) returns (r: Reply<Payment>)
    requires s.db.Valid()
    modifies s
    ensures s.db.Valid()
    ensures old(s.db.CapacityHolds()) ==> s.db.CapacityHolds()
    ensures old(s.db.AveragesHold()) ==> s.db.AveragesHold()
    ensures caller.None? ==> r == Fail(401, UNAUTHORIZED)
    ensures caller.Some? && caller.value.role != FARMER ==> r == Fail(403, Msg("Only farmers can release payments"))
    ensures caller.Some? && caller.value.role == FARMER && id !in old(s.db.payments) ==>
      r == Fail(404, Msg("Payment not found"))
    ensures (caller.Some? && caller.value.role == FARMER && id in old(s.db.payments)
      && PayerOf(old(s.db), id) != caller.value.userId) ==>
      r == Fail(403, Msg("You can only release payments for your own jobs"))
    ensures (caller.Some? && caller.value.role == FARMER && id in old(s.db.payments)
      && PayerOf(old(s.db), id) == caller.value.userId && old(s.db.payments)[id].status != HELD_IN_ESCROW) ==>
      r == Fail(400, Msg("Payment is not in escrow"))
    ensures r.Ok? <==> MayRelease(old(s.db), caller, id)
    ensures r.Fail? ==> unchanged(s)
    ensures r.Ok? ==> s.db == Released(old(s.db), id, now) && r == Ok(200, s.db.payments[id])
  {
    if caller.None? {
      return Fail(401, UNAUTHORIZED);
    }
    if caller.value.role != FARMER {
      return Fail(403, Msg("Only farmers can release payments"));
    }
    if id !in s.db.payments {
      return Fail(404, Msg("Payment not found"));
    }
    var payment := s.db.payments[id];
    var application := s.db.applications[payment.applicationId];
    var farmerId := s.db.jobs[application.jobId].farmerId;
    if farmerId != caller.value.userId {
      return Fail(403, Msg("You can only release payments for your own jobs"));
    }
    if payment.status != HELD_IN_ESCROW {
      return Fail(400, Msg("Payment is not in escrow"));
    }
    // The transaction, one write at a time.
    s.db := s.db.PutPayment(id, payment.(status := RELEASED, releasedAt := Some(now)));
    var releasedPayment := s.db.payments[id];
    s.db := s.db.SetApplicationStatus(payment.applicationId, AppStatus.COMPLETED);
    s.db := s.db.PutWorkerProfile(application.workerId, Credited(s.db.workerProfiles[application.workerId], payment.amount));
    s.db := s.db.PutFarmerProfile(farmerId, Debited(s.db.farmerProfiles[farmerId], payment.amount));
    r := Ok(200, releasedPayment);
  }

  /** A payment is released at most once: after a release the same request
      fails the escrow check, so the worker is never credited twice. */
  lemma ReleaseOnce(db: Tables, caller: Option<Caller>, id: Id, now: Timestamp)
    requires db.Valid() && MayRelease(db, caller, id)
    ensures var t := Released(db, id, now);
      && id in t.payments && PayerOf(t, id) == caller.value.userId
      && t.payments[id].status == RELEASED && !MayRelease(t, caller, id)
  {
    var t := Released(db, id, now);
    var a := db.payments[id].applicationId;
    assert t.payments[id].applicationId == a;
    assert t.applications[a].jobId == db.applications[a].jobId;
  }

  /** `GET /payments/:id`: visible to the worker paid and to the farmer
      paying, and to nobody else. */
  function GetPaymentById(db: Tables, caller: Option<Caller>, id: Id): (r: Reply<Payment>)
    requires db.Valid()
    ensures caller.None? ==> r == Fail(401, UNAUTHORIZED)
    ensures caller.Some? && id !in db.payments ==> r == Fail(404, Msg("Payment not found"))
    ensures r.Ok? <==> (caller.Some? && id in db.payments
      && (db.applications[db.payments[id].applicationId].workerId == caller.value.userId
          || PayerOf(db, id) == caller.value.userId))
    ensures r.Ok? ==> r == Ok(200, db.payments[id])
    ensures r.Fail? && caller.Some? && id in db.payments ==>
      r == Fail(403, Msg("You do not have permission to view this payment"))
  {
    if caller.None? then Fail(401, UNAUTHORIZED)
    else if id !in db.payments then Fail(404, Msg("Payment not found"))
    else
      var a := db.applications[db.payments[id].applicationId];
      if a.workerId != caller.value.userId && db.jobs[a.jobId].farmerId != caller.value.userId then
        Fail(403, Msg("You do not have permission to view this payment"))
      else Ok(200, db.payments[id])
  }
}
