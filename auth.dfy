/** Signup and login. Signup checks its request in a fixed order (required
    fields, role, password length, phone digits, e-mail shape, unused
    contacts) and then creates the user and the profile of its role in one
    transaction. Login looks the user up by phone and answers the same way
    for an unknown phone and a wrong password. Password hashing, the
    password comparison and token signing happen outside the controller:
    they are parameters here, and the token is represented by the claims it
    carries. */
module Auth {
  import opened Common
  import opened Schema
  import opened Ledger

  /** A reply that signs the caller in: the user without its password and
      the claims of the token issued for it. */
  datatype Session = Session(user: PublicUser, token: Caller)

  // ---------------------------------------------------------------------
  // The validation chain

  /** JavaScript's `\d`: the ASCII digits. */
  predicate IsDigit(c: char)
  {
    '0' <= c <= '9'
  }

  /** `s.replace(/\D/g, '')`: the digits of `s`, in order. */
  function DigitsOf(s: string): (d: string)
    ensures |d| <= |s|
    ensures forall k :: 0 <= k < |d| ==> IsDigit(d[k])
  {
    if s == [] then [] else DigitsOf(s[..|s| - 1]) + (if IsDigit(s[|s| - 1]) then [s[|s| - 1]] else [])
  }

  /** Stripping distributes over concatenation. */
  lemma {:induction false} DigitsOfConcat(a: string, b: string)
    ensures DigitsOf(a + b) == DigitsOf(a) + DigitsOf(b)
    decreases |b|
  {
    if b == [] {
      assert a + b == a;
    } else {
      var b' := b[..|b| - 1];
      assert (a + b)[..|a + b| - 1] == a + b';
      DigitsOfConcat(a, b');
    }
  }

  /** A string of digits is its own digit string. */
  lemma {:induction false} DigitsOfDigits(s: string)
    requires forall k :: 0 <= k < |s| ==> IsDigit(s[k])
    ensures DigitsOf(s) == s
  {
    if s != [] {
      DigitsOfDigits(s[..|s| - 1]);
    }
  }

  /** `/^[6-9]\d{9}$/`: ten digits, the first between 6 and 9. */
  predicate IndianMobile(d: string)
  {
    |d| == 10 && '6' <= d[0] <= '9' && forall k :: 0 <= k < 10 ==> IsDigit(d[k])
  }

  /** The phone check: the pattern applied to the phone's digits. */
  predicate ValidPhone(phone: string)
  {
    IndianMobile(DigitsOf(phone))
  }

  /** Separators (spaces, dashes, brackets) anywhere in a phone number do
      not change whether it is accepted. */
  lemma SeparatorIgnored(a: string, c: char, b: string)
    requires !IsDigit(c)
    ensures ValidPhone(a + [c] + b) == ValidPhone(a + b)
  {
    DigitsOfConcat(a + [c], b);
    DigitsOfConcat(a, [c]);
    assert DigitsOf([c]) == DigitsOf([]) + [] by {
      assert [c][..0] == [];
    }
    DigitsOfConcat(a, b);
  }

  /** A bare ten-digit number is accepted exactly when it starts with 6 to 9. */
  lemma BareNumber(d: string)
    requires |d| == 10 && forall k :: 0 <= k < 10 ==> IsDigit(d[k])
    ensures ValidPhone(d) <==> '6' <= d[0] <= '9'
  {
    DigitsOfDigits(d);
  }

  /** JavaScript's `\s`: the ECMAScript white space and line terminators. */
  predicate IsSpace(c: char)
  {
    var n := c as int;
    9 <= n <= 13 || n == 0x20 || n == 0xA0 || n == 0x1680 || 0x2000 <= n <= 0x200A
    || n == 0x2028 || n == 0x2029 || n == 0x202F || n == 0x205F || n == 0x3000 || n == 0xFEFF
  }

  /** `[^\s@]+`: a non-empty run of characters that are neither white space
      nor '@'. */
  predicate Plain(x: string)
  {
    |x| > 0 && forall k :: 0 <= k < |x| ==> !IsSpace(x[k]) && x[k] != '@'
  }

  /** What `/^[^\s@]+@[^\s@]+\.[^\s@]+$/` matches: a decomposition into a
      local part, '@', a domain part, '.', and a last label. */
  ghost predicate EmailPattern(e: string)
  {
    exists l, d, t :: Plain(l) && Plain(d) && Plain(t) && e == l + ['@'] + d + ['.'] + t
  }

  /** The e-mail check as the handler can decide it: no white space, exactly
      one '@' and not first, and a '.' after it that is neither right after
      the '@' nor last. */
  predicate ValidEmail(e: string)
  {
    && (forall k :: 0 <= k < |e| ==> !IsSpace(e[k]))
    && exists i :: 0 < i < |e| && e[i] == '@' && (forall k :: 0 <= k < |e| && k != i ==> e[k] != '@')
         && exists m :: i + 1 < m < |e| - 1 && e[m] == '.'
  }

  /** Every address the check accepts splits at its '@' and at a '.' after
      it into three parts the pattern accepts. */
  lemma EmailCheckSound(e: string)
    requires ValidEmail(e)
    ensures EmailPattern(e)
  {
    var i :| 0 < i < |e| && e[i] == '@' && (forall k :: 0 <= k < |e| && k != i ==> e[k] != '@')
      && exists m :: i + 1 < m < |e| - 1 && e[m] == '.';
    var m :| i + 1 < m < |e| - 1 && e[m] == '.';
    var l, d, t := e[..i], e[i + 1..m], e[m + 1..];
    assert Plain(l) && Plain(d) && Plain(t);
    assert e == l + ['@'] + d + ['.'] + t;
  }

  /** Every address the pattern matches passes the check. */
  lemma EmailCheckComplete(e: string, l: string, d: string, t: string)
    requires Plain(l) && Plain(d) && Plain(t) && e == l + ['@'] + d + ['.'] + t
    ensures ValidEmail(e)
  {
    var i, m := |l|, |l| + 1 + |d|;
    assert e[i] == '@' && e[m] == '.';
    forall k | 0 <= k < |e|
      ensures !IsSpace(e[k]) && (k != i ==> e[k] != '@')
    {
      if k < i {
        assert e[k] == l[k];
      } else if i < k < m {
        assert e[k] == d[k - i - 1];
      } else if m < k {
        assert e[k] == t[k - m - 1];
      }
    }
  }

  /** The decidable check accepts exactly what the regular expression
      matches. */
  lemma EmailCheckMatchesPattern(e: string)
    ensures ValidEmail(e) <==> EmailPattern(e)
  {
    if ValidEmail(e) {
      EmailCheckSound(e);
    }
    if EmailPattern(e) {
      var l, d, t :| Plain(l) && Plain(d) && Plain(t) && e == l + ['@'] + d + ['.'] + t;
      EmailCheckComplete(e, l, d, t);
    }
  }

  /** `password.length`: the length in UTF-16 code units, where a character
      outside the Basic Multilingual Plane takes two. */
  function Utf16Length(s: string): (n: nat)
    ensures |s| <= n <= 2 * |s|
  {
    if s == [] then 0 else Utf16Length(s[..|s| - 1]) + (if s[|s| - 1] as int >= 0x1_0000 then 2 else 1)
  }

  /** For text in the Basic Multilingual Plane the length is the number of
      characters. */
  lemma {:induction false} Utf16LengthBasic(s: string)
    requires forall k :: 0 <= k < |s| ==> s[k] as int < 0x1_0000
    ensures Utf16Length(s) == |s|
  {
    if s != [] {
      Utf16LengthBasic(s[..|s| - 1]);
    }
  }

  /** `['WORKER', 'FARMER'].includes(role)`: only these two roles can sign
      up. */
  function SignupRole(role: string): (r: Option<Role>)
    ensures r.Some? <==> role == "WORKER" || role == "FARMER"
    ensures r.Some? ==> r.value != ADMIN
    ensures r == Some(WORKER) <==> role == "WORKER"
  {
    if role == "WORKER" then Some(WORKER) else if role == "FARMER" then Some(FARMER) else None
  }

  // ---------------------------------------------------------------------
  // Signup

  /** The fields of a signup request; `acceptedTerms` is its truthiness. */
  datatype SignupInput = SignupInput(
    phone: Option<string>,
    name: Option<string>,
    email: Option<string>,
    password: Option<string>,
    role: Option<string>,
    profileImage: Option<string>,
    whatsappNumber: Option<string>,
    location: Option<string>,
    latitude: Option<real>,
    longitude: Option<real>,
    acceptedTerms: bool)

  /** `f || null` on an optional string. */
  function OrNull(f: Option<string>): (r: Option<string>)
    ensures r.Some? <==> Given(f)
    ensures r.Some? ==> r == f
  {
    if Given(f) then f else None
  }

  /** `f || ''`. */
  function OrEmpty(f: Option<string>): (r: string)
    ensures Given(f) ==> r == f.value
    ensures !Given(f) ==> r == ""
  {
    if Given(f) then f.value else ""
  }

  /** `x || null` on a coordinate: 0 is falsy and is stored as null. */
  function NonZero(x: Option<real>): (r: Option<real>)
    ensures r.Some? <==> x.Some? && x.value != 0.0
    ensures r.Some? ==> r == x
  {
    if x.Some? && x.value != 0.0 then x else None
  }

  /**
   * What the fallbacks mean for the stored row: an optional text column is
   * never the empty string (an empty field is stored as null), a required
   * text column is empty exactly when the optional one would be null, a
   * stored coordinate is never 0, and running a value through its fallback
   * a second time changes nothing.
   */
  lemma FallbackLaws(f: Option<string>, x: Option<real>)
    ensures OrNull(f) != Some("")
    ensures OrNull(OrNull(f)) == OrNull(f)
    ensures OrEmpty(f) == "" <==> OrNull(f).None?
    ensures OrEmpty(OrNull(f)) == OrEmpty(f)
    ensures NonZero(x) != Some(0.0)
    ensures NonZero(NonZero(x)) == NonZero(x)
  {
  }

  /** The four required fields are present and non-empty. */
  predicate Required(i: SignupInput)
  {
    Given(i.phone) && Given(i.name) && Given(i.password) && Given(i.role)
  }

  /** The request passes every check that does not read the store. */
  predicate WellFormed(i: SignupInput)
  {
    && Required(i)
    && SignupRole(i.role.value).Some?
    && Utf16Length(i.password.value) >= 8
    && ValidPhone(i.phone.value)
    && (Given(i.email) ==> ValidEmail(i.email.value))
  }

  /** The message of the first check the request fails, in the handler's
      order, or none when it passes them all. */
  function SignupError(i: SignupInput): (e: Option<string>)
    ensures e.None? <==> WellFormed(i)
    ensures !Required(i) ==> e == Some("Phone, name, password, and role are required")
    ensures Required(i) && SignupRole(i.role.value).None? ==> e == Some("Role must be WORKER or FARMER")
    ensures (Required(i) && SignupRole(i.role.value).Some? && Utf16Length(i.password.value) < 8) ==>
      e == Some("Password must be at least 8 characters long")
    ensures (Required(i) && SignupRole(i.role.value).Some? && Utf16Length(i.password.value) >= 8
      && !ValidPhone(i.phone.value)) ==>
      e == Some("Please enter a valid 10-digit Indian phone number")
    ensures (Required(i) && SignupRole(i.role.value).Some? && Utf16Length(i.password.value) >= 8
      && ValidPhone(i.phone.value) && Given(i.email) && !ValidEmail(i.email.value)) ==>
      e == Some("Please enter a valid email address")
  {
    if !Required(i) then Some("Phone, name, password, and role are required")
    else if SignupRole(i.role.value).None? then Some("Role must be WORKER or FARMER")
    else if Utf16Length(i.password.value) < 8 then Some("Password must be at least 8 characters long")
    else if !ValidPhone(i.phone.value) then Some("Please enter a valid 10-digit Indian phone number")
    else if Given(i.email) && !ValidEmail(i.email.value) then Some("Please enter a valid email address")
    else None
  }

  /** The user row signup creates: the phone as typed, the e-mail and the
      optional strings or null, the hashed password, and the terms
      acceptance time. */
  function NewUser(i: SignupInput, hash: string -> string, now: Timestamp): (u: User)
    requires WellFormed(i)
    ensures u.phone == i.phone.value && u.name == i.name.value && u.email == OrNull(i.email)
    ensures u.password == hash(i.password.value) && u.role == SignupRole(i.role.value).value
    ensures u.acceptedTermsAt.Some? <==> i.acceptedTerms
  {
    User(i.phone.value, i.name.value, OrNull(i.email), hash(i.password.value), SignupRole(i.role.value).value,
      OrNull(i.profileImage), OrNull(i.whatsappNumber), if i.acceptedTerms then Some(now) else None)
  }

  /** The new worker's profile: empty lists, the location or '', the
      non-zero coordinates, and zero aggregates. */
  function NewWorkerProfile(i: SignupInput): (p: WorkerProfile)
    ensures p.skills == [] && p.languages == [] && p.certifications == []
    ensures p.location == OrEmpty(i.location) && p.latitude == NonZero(i.latitude) && p.longitude == NonZero(i.longitude)
    ensures p.experienceYears == 0 && p.totalEarnings == 0.0 && p.totalJobs == 0 && p.averageRating == 0.0
  {
    WorkerProfile([], [], OrEmpty(i.location), NonZero(i.latitude), NonZero(i.longitude), 0, [], 0.0, 0, 0.0)
  }

  /** The new farmer's profile: no farm name, the location as the farm's,
      the non-zero coordinates, and zero aggregates. */
  function NewFarmerProfile(i: SignupInput): (p: FarmerProfile)
    ensures p.farmName == "" && p.cropTypes == [] && p.farmSize.None?
    ensures p.farmLocation == OrEmpty(i.location) && p.latitude == NonZero(i.latitude) && p.longitude == NonZero(i.longitude)
    ensures p.totalSpent == 0.0 && p.totalJobsPosted == 0 && p.averageRating == 0.0
  {
    FarmerProfile("", OrEmpty(i.location), NonZero(i.latitude), NonZero(i.longitude), None, [], 0.0, 0, 0.0)
  }

  /** The `findFirst` on `OR: [{ phone }, { email }]`, the e-mail condition
      only when one is given: some user already has these contacts. */
  function Taken(db: Tables, phone: string, email: Option<string>): (b: bool)
    ensures b <==> !db.ContactsFree(phone, OrNull(email), None)
  {
    exists v :: v in db.users && (db.users[v].phone == phone || (Given(email) && db.users[v].email == email))
  }

  /** Signup succeeds. */
  predicate MaySignUp(db: Tables, i: SignupInput)
  {
    WellFormed(i) && !Taken(db, i.phone.value, i.email)
  }

  /** The signup transaction: the new user under the next id, the empty
      profile of its role under the same id, and no other row. */
  function SignedUp(db: Tables, i: SignupInput, hash: string -> string, now: Timestamp): (t: Tables)
    requires db.Valid() && MaySignUp(db, i)
    ensures t.Valid()
    ensures db.ContactsHold() ==> t.ContactsHold()
    ensures db.CapacityHolds() ==> t.CapacityHolds()
    ensures db.AveragesHold() ==> t.AveragesHold()
    ensures Added(db.users, t.users, db.nextId, NewUser(i, hash, now)) && t.nextId == db.nextId + 1
    ensures i.role.value == "WORKER" ==>
      Added(db.workerProfiles, t.workerProfiles, db.nextId, NewWorkerProfile(i)) && t.farmerProfiles == db.farmerProfiles
    ensures i.role.value == "FARMER" ==>
      Added(db.farmerProfiles, t.farmerProfiles, db.nextId, NewFarmerProfile(i)) && t.workerProfiles == db.workerProfiles
    ensures t.jobs == db.jobs && t.applications == db.applications && t.payments == db.payments && t.ratings == db.ratings
  {
    var u := NewUser(i, hash, now);
    if u.role == WORKER then db.InsertWorker(u, NewWorkerProfile(i)) else db.InsertFarmer(u, NewFarmerProfile(i))
  }

  /** `POST /auth/signup`: the validation chain, then the user and one
      profile of its role under the same new id, both or neither. */
  method Signup(s: Store, i: SignupInput, hash: string -> string, now: Timestamp) returns (r: Reply<Session>)
    requires s.db.Valid()
    modifies s
    ensures s.db.Valid()
    ensures old(s.db.CapacityHolds()) ==> s.db.CapacityHolds()
    ensures old(s.db.AveragesHold()) ==> s.db.AveragesHold()
    ensures old(s.db.ContactsHold()) ==> s.db.ContactsHold()
    ensures !WellFormed(i) ==> r == Fail(400, Msg(SignupError(i).value))
    ensures WellFormed(i) && Taken(old(s.db), i.phone.value, i.email) ==>
      r == Fail(400, Msg("User already exists with this phone or email"))
    ensures r.Ok? <==> MaySignUp(old(s.db), i)
    ensures r.Fail? ==> unchanged(s)
    ensures r.Ok? ==>
      var u := NewUser(i, hash, now);
      r == Ok(201, Session(WithoutPassword(old(s.db.nextId), u), Caller(old(s.db.nextId), u.role)))
      && s.db == SignedUp(old(s.db), i, hash, now)
  {
    var e := SignupError(i);
    if e.Some? {
      return Fail(400, Msg(e.value));
    }
    if Taken(s.db, i.phone.value, i.email) {
      return Fail(400, Msg("User already exists with this phone or email"));
    }
    var id := s.db.nextId;
    var u := NewUser(i, hash, now);
    s.db := SignedUp(s.db, i, hash, now);
    r := Ok(201, Session(WithoutPassword(id, u), Caller(id, u.role)));
  }

  /** A number already registered can be registered again when typed with a
      separator: the uniqueness check compares phones as typed, while the
      format check reads only their digits. Here the one registered user has
      the bare number `a + b` and no e-mail, and the new request carries
      `a + [c] + b`, the same digits, and is otherwise acceptable. */
  lemma SeparatedNumberPassesUniqueness(db: Tables, w: Id, i: SignupInput, a: string, c: char, b: string)
    requires db.users.Keys == {w} && db.users[w].phone == a + b && db.users[w].email.None?
    requires !IsDigit(c) && i.phone == Some(a + [c] + b)
    requires WellFormed(i.(phone := Some(a + b)))
    ensures MaySignUp(db, i)
    ensures DigitsOf(i.phone.value) == DigitsOf(db.users[w].phone)
  {
    SeparatorIgnored(a, c, b);
    DigitsOfConcat(a + [c], b);
    DigitsOfConcat(a, [c]);
    DigitsOfConcat(a, b);
    assert DigitsOf([c]) == DigitsOf([]) + [] by {
      assert [c][..0] == [];
    }
    assert |a + [c] + b| != |a + b|;
  }

  // ---------------------------------------------------------------------
  // Login and the current user

  /** `findUnique({ where: { phone } })`: phone numbers are unique, so at
      most one user matches. */
  function UserByPhone(db: Tables, phone: string): (r: Option<Id>)
    requires db.ContactsHold()
    ensures r.Some? ==> r.value in db.users && db.users[r.value].phone == phone
    ensures r.None? ==> forall v :: v in db.users ==> db.users[v].phone != phone
  {
    if exists v :: v in db.users && db.users[v].phone == phone then
      var v :| v in db.users && db.users[v].phone == phone; Some(v)
    else None
  }

  /** `POST /auth/login`: the user with this phone whose stored hash the
      password matches is signed in; an unknown phone and a wrong password
      get the same answer. */
  function Login(db: Tables, phone: Option<string>, password: Option<string>, matches: (string, string) -> bool): (r: Reply<Session>)
    requires db.ContactsHold()
    ensures !(Given(phone) && Given(password)) ==> r == Fail(400, Msg("Phone and password are required"))
    ensures r.Ok? <==> (Given(phone) && Given(password)
      && exists v :: v in db.users && db.users[v].phone == phone.value && matches(password.value, db.users[v].password))
    ensures r.Ok? ==>
      r.code == 200 && r.value.token.userId in db.users
      && r.value.user == WithoutPassword(r.value.token.userId, db.users[r.value.token.userId])
      && r.value.token.role == db.users[r.value.token.userId].role
      && db.users[r.value.token.userId].phone == phone.value
    ensures r.Fail? && Given(phone) && Given(password) ==> r == Fail(401, Msg("Invalid credentials"))
  {
    if !(Given(phone) && Given(password)) then Fail(400, Msg("Phone and password are required"))
    else match UserByPhone(db, phone.value)
      case None => Fail(401, Msg("Invalid credentials"))
      case Some(v) =>
        if !matches(password.value, db.users[v].password) then Fail(401, Msg("Invalid credentials"))
        else Ok(200, Session(WithoutPassword(v, db.users[v]), Caller(v, db.users[v].role)))
  }

  /** Whoever signs up can log in with the same phone and password, as the
      new user, provided the comparison accepts a password against its own
      hash. */
  lemma LoginAfterSignup(db: Tables, i: SignupInput, hash: string -> string, now: Timestamp, matches: (string, string) -> bool)
    requires db.Valid() && db.ContactsHold() && MaySignUp(db, i)
    requires matches(i.password.value, hash(i.password.value))
    ensures var t := SignedUp(db, i, hash, now);
            var u := NewUser(i, hash, now);
            t.ContactsHold()
            && Login(t, i.phone, i.password, matches) == Ok(200, Session(WithoutPassword(db.nextId, u), Caller(db.nextId, u.role)))
  {
    var u := NewUser(i, hash, now);
    var t := SignedUp(db, i, hash, now);
    assert t.users[db.nextId] == u;
    assert UserByPhone(t, u.phone) == Some(db.nextId);
  }

  /** `GET /auth/me`: the caller's own user, without its password. */
  function GetMe(db: Tables, caller: Option<Caller>): (r: Reply<PublicUser>)
    ensures caller.None? ==> r == Fail(401, UNAUTHORIZED)
    ensures caller.Some? && caller.value.userId !in db.users ==> r == Fail(404, Msg("User not found"))
    ensures r.Ok? <==> caller.Some? && caller.value.userId in db.users
    ensures r.Ok? ==>
      r.code == 200 && r.value.id == caller.value.userId
      && r.value == WithoutPassword(caller.value.userId, db.users[caller.value.userId])
  {
    if caller.None? then Fail(401, UNAUTHORIZED)
    else if caller.value.userId !in db.users then Fail(404, Msg("User not found"))
    else Ok(200, WithoutPassword(caller.value.userId, db.users[caller.value.userId]))
  }
}
