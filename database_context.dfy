/** The user and company database (`DatabaseContext`): users and
    companies as arrays in insertion order, the checks `createUser` makes,
    merges and deletions by id, and the lookups. */
module DatabaseContext {
  import opened Common

  const SUPER_ADMIN := "super-admin"
  const MISSING_FIELDS := "Missing required fields"
  const EMAIL_EXISTS := "Email already exists"

  datatype User = User(
    id: string,
    email: string,
    password: string,
    role: string,
    firstName: string,
    lastName: string,
    isActive: bool,
    createdAt: int,
    lastLogin: Option<int>,
    resellerId: Option<string>,
    companyName: Option<string>,
    companySize: Option<string>,
    industry: Option<string>)

  /** A user record without its password, as handed out. */
  datatype PublicUser = PublicUser(
    id: string,
    email: string,
    role: string,
    firstName: string,
    lastName: string,
    isActive: bool,
    createdAt: int,
    lastLogin: Option<int>,
    resellerId: Option<string>,
    companyName: Option<string>,
    companySize: Option<string>,
    industry: Option<string>)

  /** The fields a caller passes to `createUser`; an empty string is a
      missing field. */
  datatype UserData = UserData(
    email: string,
    password: string,
    role: string,
    firstName: string,
    lastName: string,
    resellerId: Option<string>,
    companyName: Option<string>,
    companySize: Option<string>,
    industry: Option<string>)

  /** The fields an `updateUser` call sets. */
  datatype UserUpdate = UserUpdate(
    email: Option<string>,
    password: Option<string>,
    role: Option<string>,
    firstName: Option<string>,
    lastName: Option<string>,
    isActive: Option<bool>,
    lastLogin: Option<int>)

  datatype Company = Company(id: string, name: string, resellerId: Option<string>, createdAt: int)
  datatype CompanyData = CompanyData(name: string, resellerId: Option<string>)
  datatype CompanyUpdate = CompanyUpdate(name: Option<string>, resellerId: Option<string>)

  /** `const { password, ...rest } = user`. */
  function WithoutPassword(u: User): (p: PublicUser)
    ensures p.id == u.id && p.email == u.email && p.role == u.role && p.isActive == u.isActive
    ensures p.lastLogin == u.lastLogin && p.resellerId == u.resellerId
  {
    PublicUser(u.id, u.email, u.role, u.firstName, u.lastName, u.isActive, u.createdAt, u.lastLogin,
      u.resellerId, u.companyName, u.companySize, u.industry)
  }

  /** No two users share an email. */
  predicate EmailsUnique(users: seq<User>)
  {
    forall i, j :: 0 <= i < j < |users| ==> users[i].email != users[j].email
  }

  /** The user created when there is no stored database. */
  function DefaultAdmin(id: string, now: int): (u: User)
    ensures u.role == SUPER_ADMIN && u.isActive && u.email == "admin@trusecure.com" && u.lastLogin.None?
  {
    User(id, "admin@trusecure.com", "admin123", SUPER_ADMIN, "System", "Administrator", true, now, None,
      None, None, None, None)
  }

  /** The error `createUser` throws, if any: missing fields first, then a
      taken email. */
  function CreateUserError(users: seq<User>, data: UserData): (e: Option<string>)
    ensures e.None? <==>
      data.email != "" && data.password != "" && data.role != "" &&
      forall i :: 0 <= i < |users| ==> users[i].email != data.email
    ensures e.Some? ==> e.value == MISSING_FIELDS || e.value == EMAIL_EXISTS
    ensures e == Some(EMAIL_EXISTS) ==> exists i :: 0 <= i < |users| && users[i].email == data.email
  {
    if data.email == "" || data.password == "" || data.role == "" then Some(MISSING_FIELDS)
    else if exists i :: 0 <= i < |users| && users[i].email == data.email then Some(EMAIL_EXISTS)
    else None
  }

  /** The record `createUser` appends: the caller's fields, active, never
      logged in. */
  function NewUser(data: UserData, id: string, now: int): (u: User)
    ensures u.id == id && u.email == data.email && u.role == data.role && u.password == data.password
    ensures u.isActive && u.lastLogin.None? && u.createdAt == now
  {
    User(id, data.email, data.password, data.role, data.firstName, data.lastName, true, now, None,
      data.resellerId, data.companyName, data.companySize, data.industry)
  }

  /** A successful `createUser` keeps the emails unique. */
  lemma CreateUserKeepsEmailsUnique(users: seq<User>, data: UserData, id: string, now: int)
    requires EmailsUnique(users)
    requires CreateUserError(users, data).None?
    ensures EmailsUnique(users + [NewUser(data, id, now)])
  {
    var all := users + [NewUser(data, id, now)];
    forall i, j | 0 <= i < j < |all| ensures all[i].email != all[j].email {
      if j == |users| {
        assert all[i] == users[i];
      } else {
        assert all[i] == users[i] && all[j] == users[j];
      }
    }
  }

  /** `{ ...user, ...updates }`. */
  function MergeUser(u: User, upd: UserUpdate): (v: User)
    ensures v.id == u.id && v.createdAt == u.createdAt && v.resellerId == u.resellerId
    ensures upd == UserUpdate(None, None, None, None, None, None, None) ==> v == u
  {
    u.(email := if upd.email.Some? then upd.email.value else u.email,
       password := if upd.password.Some? then upd.password.value else u.password,
       role := if upd.role.Some? then upd.role.value else u.role,
       firstName := if upd.firstName.Some? then upd.firstName.value else u.firstName,
       lastName := if upd.lastName.Some? then upd.lastName.value else u.lastName,
       isActive := if upd.isActive.Some? then upd.isActive.value else u.isActive,
       lastLogin := if upd.lastLogin.Some? then upd.lastLogin else u.lastLogin)
  }

  /** `users.map(user => user.id === userId ? { ...user, ...updates } : user)`. */
  function UpdatedUsers(users: seq<User>, userId: string, upd: UserUpdate): (r: seq<User>)
    ensures |r| == |users|
    ensures forall i :: 0 <= i < |users| ==>
              r[i] == if users[i].id == userId then MergeUser(users[i], upd) else users[i]
  {
    seq(|users|, i requires 0 <= i < |users| =>
          if users[i].id == userId then MergeUser(users[i], upd) else users[i])
  }

  /** The merge touches only the users with that id: each keeps its place
      and its id, and the others are unchanged. */
  lemma UpdatedUsersOnlyThatId(users: seq<User>, userId: string, upd: UserUpdate)
    ensures var r := UpdatedUsers(users, userId, upd);
      (forall i :: 0 <= i < |users| ==> r[i].id == users[i].id) &&
      (forall i :: 0 <= i < |users| && users[i].id != userId ==> r[i] == users[i]) &&
      (upd.email.None? ==> forall i :: 0 <= i < |users| ==> r[i].email == users[i].email)
  {
  }

  function HasId(userId: string): User -> bool
  {
    (u: User) => u.id == userId
  }

  /** `users.filter(user => user.id !== userId)`. */
  function RemainingUsers(users: seq<User>, userId: string): (r: seq<User>)
    ensures forall u :: u in r <==> u in users && u.id != userId
    ensures IsSubseq(r, users)
  {
    var p := Complement(HasId(userId));
    var r := Filter(users, p);
    forall u ensures u in r <==> u in users && p(u) {
      FilterMember(users, p, u);
    }
    FilterIsSubseq(users, p);
    r
  }

  /** Deleting removes exactly the users with that id: the remaining and
      the removed add up to the whole array. */
  lemma DeleteCounts(users: seq<User>, userId: string)
    ensures |RemainingUsers(users, userId)| + |Filter(users, HasId(userId))| == |users|
  {
    FilterComplementCounts(users, HasId(userId));
  }

  /** `users.find(user => user.email === email)`. */
  function FindUserByEmail(users: seq<User>, email: string): (r: Option<User>)
    ensures r.None? <==> forall i :: 0 <= i < |users| ==> users[i].email != email
    ensures r.Some? ==>
              r.value.email == email &&
              exists i :: 0 <= i < |users| && users[i] == r.value && forall j :: 0 <= j < i ==> users[j].email != email
  {
    var p := (u: User) => u.email == email;
    var k := FindIndex(users, p);
    if k < |users| then Some(users[k]) else None
  }

  /** `users.find(user => user.id === id)`. */
  function FindUserById(users: seq<User>, id: string): (r: Option<User>)
    ensures r.None? <==> forall i :: 0 <= i < |users| ==> users[i].id != id
    ensures r.Some? ==>
              r.value.id == id &&
              exists i :: 0 <= i < |users| && users[i] == r.value && forall j :: 0 <= j < i ==> users[j].id != id
  {
    var p := HasId(id);
    var k := FindIndex(users, p);
    if k < |users| then Some(users[k]) else None
  }

  /** With unique emails the user found by email is the only one with it. */
  lemma FindByEmailUnique(users: seq<User>, email: string, i: nat)
    requires EmailsUnique(users)
    requires i < |users| && users[i].email == email
    ensures FindUserByEmail(users, email) == Some(users[i])
  {
    var k := FindIndex(users, (u: User) => u.email == email);
    assert k <= i;
  }

  /** The filter of `getUsersByRole`: an empty role or reseller id is not
      given and does not filter. */
  function RoleFilter(role: string, resellerId: string): User -> bool
  {
    (u: User) => (role == "" || u.role == role) && (resellerId == "" || u.resellerId == Some(resellerId))
  }

  /** `getUsersByRole(role, resellerId)`: the users passing both filters,
      in order. */
  function UsersByRole(users: seq<User>, role: string, resellerId: string): (r: seq<User>)
    ensures IsSubseq(r, users)
    ensures forall u :: u in r <==>
      u in users && (role == "" || u.role == role) && (resellerId == "" || u.resellerId == Some(resellerId))
    ensures role == "" && resellerId == "" ==> r == users
  {
    var p := RoleFilter(role, resellerId);
    var r := Filter(users, p);
    forall u ensures u in r <==> u in users && p(u) {
      FilterMember(users, p, u);
    }
    FilterIsSubseq(users, p);
    assert role == "" && resellerId == "" ==> r == users by {
      if role == "" && resellerId == "" {
        FilterAll(users, p);
      }
    }
    r
  }

  /** `getCompaniesByReseller`. */
  function CompaniesByReseller(companies: seq<Company>, resellerId: Option<string>): (r: seq<Company>)
    ensures IsSubseq(r, companies)
    ensures forall c :: c in r <==> c in companies && c.resellerId == resellerId
  {
    var p := (c: Company) => c.resellerId == resellerId;
    var r := Filter(companies, p);
    forall c ensures c in r <==> c in companies && p(c) {
      FilterMember(companies, p, c);
    }
    FilterIsSubseq(companies, p);
    r
  }

  /** `getDatabaseState().users`: every user without the password. */
  function PublicUsers(users: seq<User>): (r: seq<PublicUser>)
    ensures |r| == |users|
    ensures forall i :: 0 <= i < |users| ==> r[i] == WithoutPassword(users[i])
  {
    seq(|users|, i requires 0 <= i < |users| => WithoutPassword(users[i]))
  }

  function MergeCompany(c: Company, upd: CompanyUpdate): (d: Company)
    ensures d.id == c.id && d.createdAt == c.createdAt
  {
    c.(name := if upd.name.Some? then upd.name.value else c.name,
       resellerId := if upd.resellerId.Some? then upd.resellerId else c.resellerId)
  }

  /** The database. */
  class Database {
    var users: seq<User>
    var companies: seq<Company>

    /** The state without stored data: the default super-admin only. */
    constructor Init(adminId: string, now: int)
      ensures users == [DefaultAdmin(adminId, now)] && companies == []
      ensures |users| == 1 && users[0].role == SUPER_ADMIN && users[0].isActive
    {
      users := [DefaultAdmin(adminId, now)];
      companies := [];
    }

    /** The state loaded from storage. */
    constructor Load(users: seq<User>, companies: seq<Company>)
      ensures this.users == users && this.companies == companies
    {
      this.users := users;
      this.companies := companies;
    }

    /** `createUser`: rejected with the first failing check, else the new
        user is appended and returned without its password. */
    method CreateUser(data: UserData, id: string, now: int) returns (r: Result<PublicUser>)
      modifies this
      ensures CreateUserError(old(users), data).Some? ==>
                r == Err(CreateUserError(old(users), data).value) && users == old(users)
      ensures CreateUserError(old(users), data).None? ==>
                users == old(users) + [NewUser(data, id, now)] && r == Ok(WithoutPassword(NewUser(data, id, now)))
      ensures EmailsUnique(old(users)) ==> EmailsUnique(users)
      ensures companies == old(companies)
    {
      var e := CreateUserError(users, data);
      if e.Some? {
        return Err(e.value);
      }
      var u := NewUser(data, id, now);
      if EmailsUnique(users) {
        CreateUserKeepsEmailsUnique(users, data, id, now);
      }
      users := users + [u];
      r := Ok(WithoutPassword(u));
    }

    /** `updateUser`. */
    method UpdateUser(userId: string, upd: UserUpdate)
      modifies this
      ensures users == UpdatedUsers(old(users), userId, upd) && companies == old(companies)
    {
      users := UpdatedUsers(users, userId, upd);
    }

    /** `deleteUser`. */
    method DeleteUser(userId: string)
      modifies this
      ensures users == RemainingUsers(old(users), userId) && companies == old(companies)
      ensures forall u :: u in users ==> u.id != userId
    {
      users := RemainingUsers(users, userId);
    }

    /** `createCompany`: appended with a new id. */
    method CreateCompany(data: CompanyData, id: string, now: int) returns (c: Company)
      modifies this
      ensures c == Company(id, data.name, data.resellerId, now)
      ensures companies == old(companies) + [c] && users == old(users)
    {
      c := Company(id, data.name, data.resellerId, now);
      companies := companies + [c];
    }

    /** `updateCompany`. */
    method UpdateCompany(companyId: string, upd: CompanyUpdate)
      modifies this
      ensures |companies| == |old(companies)| && users == old(users)
      ensures forall i :: 0 <= i < |companies| ==>
                companies[i] == if old(companies)[i].id == companyId then MergeCompany(old(companies)[i], upd)
                                else old(companies)[i]
    {
      var cs := companies;
      companies := seq(|cs|, i requires 0 <= i < |cs| =>
                     if cs[i].id == companyId then MergeCompany(cs[i], upd) else cs[i]);
    }
  }
}
