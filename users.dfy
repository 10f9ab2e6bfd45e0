/** The user controller: a user edits their own account details and the
    profile of their role, each through a partial update that leaves out
    the fields the request does not supply, and anyone reads a user's public
    record. */
module Users {
  import opened Common
  import opened Schema
  import opened Queries
  import opened Reputation
  import opened Ledger

  // ---------------------------------------------------------------------
  // Account details

  /** The body of `PUT /users/profile`. */
  datatype AccountChange = AccountChange(name: Option<string>, email: Option<string>, profileImage: Option<string>)

  const NO_ACCOUNT_CHANGE := AccountChange(None, None, None)

  /** The user row after the update: name, e-mail and profile image take the
      supplied value when it is truthy; every other column, the phone, the
      password hash and the role among them, is left as it was. */
  function WithAccountChange(u: User, c: AccountChange): (v: User)
    ensures v.name == (if Given(c.name) then c.name.value else u.name)
    ensures v.email == (if Given(c.email) then c.email else u.email)
    ensures v.profileImage == (if Given(c.profileImage) then c.profileImage else u.profileImage)
    ensures v.(name := u.name, email := u.email, profileImage := u.profileImage) == u
  {
    User(u.phone, if Given(c.name) then c.name.value else u.name, if Given(c.email) then c.email else u.email,
      u.password, u.role, if Given(c.profileImage) then c.profileImage else u.profileImage,
      u.whatsappNumber, u.acceptedTermsAt)
  }

  /** An empty body changes nothing, an update applied twice is applied
      once, and of two updates the later one wins field by field. */
  lemma AccountChangeLaws(u: User, c: AccountChange, c': AccountChange)
    ensures WithAccountChange(u, NO_ACCOUNT_CHANGE) == u
    ensures WithAccountChange(WithAccountChange(u, c), c) == WithAccountChange(u, c)
    ensures WithAccountChange(WithAccountChange(u, c), c') == WithAccountChange(u, LaterAccountChange(c, c'))
  {
  }

  /** Two account updates merged into one: a truthy field of the later one
      replaces the same field of the earlier one. */
  function LaterAccountChange(c: AccountChange, c': AccountChange): (d: AccountChange)
    ensures Given(d.name) <==> Given(c.name) || Given(c'.name)
    ensures Given(c'.email) ==> d.email == c'.email
  {
    AccountChange(if Given(c'.name) then c'.name else c.name,
      if Given(c'.email) then c'.email else c.email,
      if Given(c'.profileImage) then c'.profileImage else c.profileImage)
  }

  /** The `updateData` object of `updateProfile`, built one truthy field at
      a time and applied to the row. */
  method ApplyAccountChange(u: User, c: AccountChange) returns (v: User)
    ensures v == WithAccountChange(u, c)
  {
    v := u;
    if Given(c.name) {
      v := v.(name := c.name.value);
    }
    if Given(c.email) {
      v := v.(email := c.email);
    }
    if Given(c.profileImage) {
      v := v.(profileImage := c.profileImage);
    }
  }

  /** The new e-mail address already belongs to another user, so the unique
      index refuses the update. */
  predicate EmailInUse(db: Tables, id: Id, email: Option<string>)
  {
    Given(email) && exists v :: v in db.users && v != id && db.users[v].email == email
  }

  /** A change that the unique index accepts keeps every user's phone and
      e-mail address their own. */
  lemma AccountChangeKeepsContacts(db: Tables, id: Id, c: AccountChange)
    requires db.ContactsHold() && id in db.users && !EmailInUse(db, id, c.email)
    ensures var v := WithAccountChange(db.users[id], c);
            db.ContactsFree(v.phone, v.email, Some(id))
  {
    var v := WithAccountChange(db.users[id], c);
    forall w | w in db.users && w != id
      ensures db.users[w].phone != v.phone && (v.email.None? || db.users[w].email != v.email)
    {
      assert v.phone == db.users[id].phone;
    }
  }

  /** The store after the account update of user `id`. */
  function Reaccounted(db: Tables, id: Id, c: AccountChange): (t: Tables)
    requires db.Valid() && db.ContactsHold() && id in db.users && !EmailInUse(db, id, c.email)
    ensures t.Valid() && t.ContactsHold()
    ensures db.CapacityHolds() ==> t.CapacityHolds()
    ensures db.AveragesHold() ==> t.AveragesHold()
    ensures Replaced(db.users, t.users, id, WithAccountChange(db.users[id], c))
    ensures t.(users := db.users) == db
  {
    AccountChangeKeepsContacts(db, id, c);
    db.PutUser(id, WithAccountChange(db.users[id], c))
  }

  /** `PUT /users/profile`: the caller's own row takes the truthy fields of
      the body. An unknown caller or an e-mail address another user holds
      makes the store throw, reported as a 500 with nothing written. */
  method UpdateProfile(s: Store, caller: Option<Caller>, c: AccountChange) returns (r: Reply<PublicUser>)
    requires s.db.Valid() && s.db.ContactsHold()
    modifies s
    ensures s.db.Valid() && s.db.ContactsHold()
    ensures old(s.db.CapacityHolds()) ==> s.db.CapacityHolds()
    ensures old(s.db.AveragesHold()) ==> s.db.AveragesHold()
    ensures caller.None? ==> r == Fail(401, UNAUTHORIZED)
    ensures caller.Some? && (caller.value.userId !in old(s.db.users) || EmailInUse(old(s.db), caller.value.userId, c.email)) ==>
      r == Fail(500, INTERNAL_ERROR)
    ensures r.Ok? <==> (caller.Some? && caller.value.userId in old(s.db.users)
      && !EmailInUse(old(s.db), caller.value.userId, c.email))
    ensures r.Fail? ==> unchanged(s)
    ensures r.Ok? ==>
      var id := caller.value.userId;
      s.db == Reaccounted(old(s.db), id, c) && r == Ok(200, WithoutPassword(id, s.db.users[id]))
  {
    if caller.None? {
      return Fail(401, UNAUTHORIZED);
    }
    var id := caller.value.userId;
    if id !in s.db.users || EmailInUse(s.db, id, c.email) {
      return Fail(500, INTERNAL_ERROR);
    }
    var v := ApplyAccountChange(s.db.users[id], c);
    s.db := Reaccounted(s.db, id, c);
    r := Ok(200, WithoutPassword(id, v));
  }

  // ---------------------------------------------------------------------
  // Worker profile

  /** The body of `PUT /users/worker-profile`. A list counts as supplied
      whenever it is present (an array is truthy, even an empty one); the
      location only when it is a non-empty string; the coordinates and the
      years of experience whenever they are not `undefined`, so 0 and, for
      the coordinates, null are written too. */
  datatype WorkerChange = WorkerChange(
    skills: Option<seq<string>>,
    languages: Option<seq<string>>,
    location: Option<string>,
    latitude: Option<Option<real>>,
    longitude: Option<Option<real>>,
    experienceYears: Option<int>,
    certifications: Option<seq<string>>)

  const NO_WORKER_CHANGE := WorkerChange(None, None, None, None, None, None, None)

  /** The earnings, job count and average rating: written by the payment and
      rating handlers only. */
  function WorkerTotals(p: WorkerProfile): (real, int, real)
  {
    (p.totalEarnings, p.totalJobs, p.averageRating)
  }

  /** The worker profile after the update: each supplied field replaces the
      stored one, and the totals are never touched. */
  function WithWorkerChange(p: WorkerProfile, c: WorkerChange): (q: WorkerProfile)
    ensures WorkerTotals(q) == WorkerTotals(p)
    ensures q.location == (if Given(c.location) then c.location.value else p.location)
    ensures q.latitude == OrElse(c.latitude, p.latitude) && q.longitude == OrElse(c.longitude, p.longitude)
    ensures q.experienceYears == OrElse(c.experienceYears, p.experienceYears)
    ensures q.skills == OrElse(c.skills, p.skills) && q.languages == OrElse(c.languages, p.languages)
    ensures q.certifications == OrElse(c.certifications, p.certifications)
  {
    WorkerProfile(OrElse(c.skills, p.skills), OrElse(c.languages, p.languages),
      if Given(c.location) then c.location.value else p.location,
      OrElse(c.latitude, p.latitude), OrElse(c.longitude, p.longitude),
      OrElse(c.experienceYears, p.experienceYears), OrElse(c.certifications, p.certifications),
      p.totalEarnings, p.totalJobs, p.averageRating)
  }

  /** An empty body changes nothing, and an update applied twice is
      applied once. */
  lemma WorkerChangeLaws(p: WorkerProfile, c: WorkerChange)
    ensures WithWorkerChange(p, NO_WORKER_CHANGE) == p
    ensures WithWorkerChange(WithWorkerChange(p, c), c) == WithWorkerChange(p, c)
  {
  }

  /** The `updateData` object of `updateWorkerProfile`, built one supplied
      field at a time and applied to the row. */
  method ApplyWorkerChange(p: WorkerProfile, c: WorkerChange) returns (q: WorkerProfile)
    ensures q == WithWorkerChange(p, c)
  {
    q := p;
    if c.skills.Some? {
      q := q.(skills := c.skills.value);
    }
    if c.languages.Some? {
      q := q.(languages := c.languages.value);
    }
    if Given(c.location) {
      q := q.(location := c.location.value);
    }
    if c.latitude.Some? {
      q := q.(latitude := c.latitude.value);
    }
    if c.longitude.Some? {
      q := q.(longitude := c.longitude.value);
    }
    if c.experienceYears.Some? {
      q := q.(experienceYears := c.experienceYears.value);
    }
    if c.certifications.Some? {
      q := q.(certifications := c.certifications.value);
    }
  }

  /** `PUT /users/worker-profile`: a worker updates their own profile. A
      caller with no worker profile row makes the store throw (500). */
  method UpdateWorkerProfile(s: Store, caller: Option<Caller>, c: WorkerChange) returns (r: Reply<WorkerProfile>)
    requires s.db.Valid()
    modifies s
    ensures s.db.Valid()
    ensures old(s.db.CapacityHolds()) ==> s.db.CapacityHolds()
    ensures old(s.db.AveragesHold()) ==> s.db.AveragesHold()
    ensures caller.None? ==> r == Fail(401, UNAUTHORIZED)
    ensures caller.Some? && caller.value.role != WORKER ==> r == Fail(403, Msg("Only workers can update worker profile"))
    ensures caller.Some? && caller.value.role == WORKER && caller.value.userId !in old(s.db.workerProfiles) ==>
      r == Fail(500, INTERNAL_ERROR)
    ensures r.Ok? <==> caller.Some? && caller.value.role == WORKER && caller.value.userId in old(s.db.workerProfiles)
    ensures r.Fail? ==> unchanged(s)
    ensures r.Ok? ==>
      var id := caller.value.userId;
      var q := WithWorkerChange(old(s.db.workerProfiles)[id], c);
      r == Ok(200, q) && s.db == old(s.db).PutWorkerProfile(id, q)
  {
    if caller.None? {
      return Fail(401, UNAUTHORIZED);
    }
    if caller.value.role != WORKER {
      return Fail(403, Msg("Only workers can update worker profile"));
    }
    var id := caller.value.userId;
    if id !in s.db.workerProfiles {
      return Fail(500, INTERNAL_ERROR);
    }
    var q := ApplyWorkerChange(s.db.workerProfiles[id], c);
    s.db := s.db.PutWorkerProfile(id, q);
    r := Ok(200, q);
  }

  // ---------------------------------------------------------------------
  // Farmer profile

  /** The body of `PUT /users/farmer-profile`: the farm name and location
      count only when they are non-empty strings, the crop list whenever it
      is present, the coordinates and the farm size whenever they are not
      `undefined` (0 and null included). */
  datatype FarmerChange = FarmerChange(
    farmName: Option<string>,
    farmLocation: Option<string>,
    latitude: Option<Option<real>>,
    longitude: Option<Option<real>>,
    farmSize: Option<Option<real>>,
    cropTypes: Option<seq<string>>)

  const NO_FARMER_CHANGE := FarmerChange(None, None, None, None, None, None)

  /** The spending, job count and average rating of a farmer. */
  function FarmerTotals(p: FarmerProfile): (real, int, real)
  {
    (p.totalSpent, p.totalJobsPosted, p.averageRating)
  }

  /** The farmer profile after the update: each supplied field replaces the
      stored one, and the totals are never touched. */
  function WithFarmerChange(p: FarmerProfile, c: FarmerChange): (q: FarmerProfile)
    ensures FarmerTotals(q) == FarmerTotals(p)
    ensures q.farmName == (if Given(c.farmName) then c.farmName.value else p.farmName)
    ensures q.farmLocation == (if Given(c.farmLocation) then c.farmLocation.value else p.farmLocation)
    ensures q.farmSize == OrElse(c.farmSize, p.farmSize)
    ensures q.latitude == OrElse(c.latitude, p.latitude) && q.longitude == OrElse(c.longitude, p.longitude)
    ensures q.cropTypes == OrElse(c.cropTypes, p.cropTypes)
  {
    FarmerProfile(if Given(c.farmName) then c.farmName.value else p.farmName,
      if Given(c.farmLocation) then c.farmLocation.value else p.farmLocation,
      OrElse(c.latitude, p.latitude), OrElse(c.longitude, p.longitude), OrElse(c.farmSize, p.farmSize),
      OrElse(c.cropTypes, p.cropTypes), p.totalSpent, p.totalJobsPosted, p.averageRating)
  }

  /** An empty body changes nothing, and an update applied twice is
      applied once. */
  lemma FarmerChangeLaws(p: FarmerProfile, c: FarmerChange)
    ensures WithFarmerChange(p, NO_FARMER_CHANGE) == p
    ensures WithFarmerChange(WithFarmerChange(p, c), c) == WithFarmerChange(p, c)
  {
  }

  /** The `updateData` object of `updateFarmerProfile`, built one supplied
      field at a time and applied to the row. */
  method ApplyFarmerChange(p: FarmerProfile, c: FarmerChange) returns (q: FarmerProfile)
    ensures q == WithFarmerChange(p, c)
  {
    q := p;
    if Given(c.farmName) {
      q := q.(farmName := c.farmName.value);
    }
    if Given(c.farmLocation) {
      q := q.(farmLocation := c.farmLocation.value);
    }
    if c.latitude.Some? {
      q := q.(latitude := c.latitude.value);
    }
    if c.longitude.Some? {
      q := q.(longitude := c.longitude.value);
    }
    if c.farmSize.Some? {
      q := q.(farmSize := c.farmSize.value);
    }
    if c.cropTypes.Some? {
      q := q.(cropTypes := c.cropTypes.value);
    }
  }

  /** `PUT /users/farmer-profile`: a farmer updates their own profile. A
      caller with no farmer profile row makes the store throw (500). */
  method UpdateFarmerProfile(s: Store, caller: Option<Caller>, c: FarmerChange) returns (r: Reply<FarmerProfile>)
    requires s.db.Valid()
    modifies s
    ensures s.db.Valid()
    ensures old(s.db.CapacityHolds()) ==> s.db.CapacityHolds()
    ensures old(s.db.AveragesHold()) ==> s.db.AveragesHold()
    ensures caller.None? ==> r == Fail(401, UNAUTHORIZED)
    ensures caller.Some? && caller.value.role != FARMER ==> r == Fail(403, Msg("Only farmers can update farmer profile"))
    ensures caller.Some? && caller.value.role == FARMER && caller.value.userId !in old(s.db.farmerProfiles) ==>
      r == Fail(500, INTERNAL_ERROR)
    ensures r.Ok? <==> caller.Some? && caller.value.role == FARMER && caller.value.userId in old(s.db.farmerProfiles)
    ensures r.Fail? ==> unchanged(s)
    ensures r.Ok? ==>
      var id := caller.value.userId;
      var q := WithFarmerChange(old(s.db.farmerProfiles)[id], c);
      r == Ok(200, q) && s.db == old(s.db).PutFarmerProfile(id, q)
  {
    if caller.None? {
      return Fail(401, UNAUTHORIZED);
    }
    if caller.value.role != FARMER {
      return Fail(403, Msg("Only farmers can update farmer profile"));
    }
    var id := caller.value.userId;
    if id !in s.db.farmerProfiles {
      return Fail(500, INTERNAL_ERROR);
    }
    var q := ApplyFarmerChange(s.db.farmerProfiles[id], c);
    s.db := s.db.PutFarmerProfile(id, q);
    r := Ok(200, q);
  }

  // ---------------------------------------------------------------------
  // Public record

  /** What `GET /users/:id` sends: the user without the password, the
      profiles it has, and the ids of the ratings it has received. */
  datatype UserView = UserView(
    user: PublicUser,
    workerProfile: Option<WorkerProfile>,
    farmerProfile: Option<FarmerProfile>,
    receivedRatings: seq<Id>)

  function Lookup<T>(m: map<Id, T>, id: Id): (r: Option<T>)
    ensures r.Some? <==> id in m
    ensures r.Some? ==> r.value == m[id]
  {
    if id in m then Some(m[id]) else None
  }

  /** `GET /users/:id`: any user's record, to anyone; the ratings received
      are exactly the user's, newest first. */
  function GetUserById(db: Tables, id: Id): (r: Reply<UserView>)
    requires db.Valid()
    ensures id !in db.users ==> r == Fail(404, Msg("User not found"))
    ensures r.Ok? <==> id in db.users
    ensures r.Ok? ==>
      r.code == 200 && r.value.user == WithoutPassword(id, db.users[id])
      && r.value.workerProfile == Lookup(db.workerProfiles, id)
      && r.value.farmerProfile == Lookup(db.farmerProfiles, id)
      && Descending(r.value.receivedRatings)
      && (forall q :: q in r.value.receivedRatings <==> q in db.ratings && db.ratings[q].revieweeId == id)
  {
    if id !in db.users then Fail(404, Msg("User not found"))
    else
      NewestFirstExact(db.ratings, ReceivedBy(id), db.nextId);
      NewestFirstDescending(db.ratings, ReceivedBy(id), db.nextId);
      Ok(200, UserView(WithoutPassword(id, db.users[id]), Lookup(db.workerProfiles, id), Lookup(db.farmerProfiles, id),
        Received(db.ratings, id, db.nextId)))
  }

  /** The record shows the role's profile: a worker's worker profile and a
      farmer's farmer profile, and never both. */
  lemma UserViewFollowsRole(db: Tables, id: Id)
    requires db.Valid() && id in db.users
    ensures var v := GetUserById(db, id).value;
            (v.workerProfile.Some? <==> db.users[id].role == WORKER)
            && (v.farmerProfile.Some? <==> db.users[id].role == FARMER)
            && !(v.workerProfile.Some? && v.farmerProfile.Some?)
  {
  }
}
