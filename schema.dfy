/** The rows of the store and their status enumerations (the enumerations
    as the shared type definitions list them). A row does not hold its own
    id: every table is a map from id to row. */
module Schema {
  import opened Common

  datatype JobStatus = OPEN | IN_PROGRESS | COMPLETED | CANCELLED

  datatype AppStatus = PENDING | ACCEPTED | REJECTED | COMPLETED

  datatype PaymentStatus = PENDING | HELD_IN_ESCROW | RELEASED | REFUNDED | FAILED

  /** A user; `password` holds the (opaque) password hash. */
  datatype User = User(
    phone: string,
    name: string,
    email: Option<string>,
    password: string,
    role: Role,
    profileImage: Option<string>,
    whatsappNumber: Option<string>,
    acceptedTermsAt: Option<Timestamp>)

  /** A user as the handlers send it back: every column but the password. */
  datatype PublicUser = PublicUser(
    id: Id,
    phone: string,
    name: string,
    email: Option<string>,
    role: Role,
    profileImage: Option<string>,
    whatsappNumber: Option<string>,
    acceptedTermsAt: Option<Timestamp>)

  /** A user row with its password column removed: the only form in which
      any handler sends a user back. */
  function WithoutPassword(id: Id, u: User): PublicUser
  {
    PublicUser(id, u.phone, u.name, u.email, u.role, u.profileImage, u.whatsappNumber, u.acceptedTermsAt)
  }

  /** The worker profile, keyed by its user's id. */
  datatype WorkerProfile = WorkerProfile(
    skills: seq<string>,
    languages: seq<string>,
    location: string,
    latitude: Option<real>,
    longitude: Option<real>,
    experienceYears: int,
    certifications: seq<string>,
    totalEarnings: real,
    totalJobs: int,
    averageRating: real)

  /** The farmer profile, keyed by its user's id. */
  datatype FarmerProfile = FarmerProfile(
    farmName: string,
    farmLocation: string,
    latitude: Option<real>,
    longitude: Option<real>,
    farmSize: Option<real>,
    cropTypes: seq<string>,
    totalSpent: real,
    totalJobsPosted: int,
    averageRating: real)

  datatype Job = Job(
    farmerId: Id,
    title: string,
    description: string,
    jobType: string,
    location: string,
    latitude: Option<real>,
    longitude: Option<real>,
    wagePerDay: real,
    duration: int,
    workersNeeded: int,
    requiredSkills: seq<string>,
    startDate: string,
    status: JobStatus)

  datatype Application = Application(
    jobId: Id,
    workerId: Id,
    message: Option<string>,
    status: AppStatus)

  datatype Payment = Payment(
    applicationId: Id,
    amount: real,
    status: PaymentStatus,
    releasedAt: Option<Timestamp>)

  datatype Rating = Rating(
    reviewerId: Id,
    revieweeId: Id,
    rating: int,
    comment: Option<string>)
}
