/** The super-admin's user creation form (`CreateUserModal`): the checks
    made before the database is asked, the record built from the form, and
    the submit handler's effect on the form's error, loading and open
    state. */
module CreateUserModal {
  import opened Common
  import opened DatabaseContext

  const NAMES_REQUIRED := "First name and last name are required"
  const EMAIL_REQUIRED := "Email is required"
  const PASSWORD_REQUIRED := "Password is required"
  const PASSWORDS_DIFFER := "Passwords do not match"
  const PASSWORD_TOO_SHORT := "Password must be at least 6 characters"
  const MIN_PASSWORD_LENGTH := 6
  const CUSTOMER := "customer"
  const RESELLER := "reseller"

  datatype FormData = FormData(
    firstName: string,
    lastName: string,
    email: string,
    password: string,
    confirmPassword: string,
    role: string,
    resellerId: string,
    companyName: string,
    companySize: string,
    industry: string)

  /** The form as it opens: every field empty, the role 'customer'. */
  function InitialForm(): (f: FormData)
    ensures f.role == CUSTOMER && f.email == "" && f.password == ""
  {
    FormData("", "", "", "", "", CUSTOMER, "", "", "", "")
  }

  /** The resellers offered in the form's drop-down. */
  function Resellers(users: seq<User>): (r: seq<User>)
    ensures forall u :: u in r <==> u in users && u.role == RESELLER
  {
    Filter(users, (u: User) => u.role == RESELLER)
  }

  /** The checks of the submit handler, in the order it makes them; the
      first that fails gives the message. */
  function Validate(form: FormData, users: seq<User>): (e: Option<string>)
  {
    if form.firstName == "" || form.lastName == "" then Some(NAMES_REQUIRED)
    else if form.email == "" then Some(EMAIL_REQUIRED)
    else if form.password == "" then Some(PASSWORD_REQUIRED)
    else if form.password != form.confirmPassword then Some(PASSWORDS_DIFFER)
    else if |form.password| < MIN_PASSWORD_LENGTH then Some(PASSWORD_TOO_SHORT)
    else if exists i :: 0 <= i < |users| && users[i].email == form.email then Some(EMAIL_EXISTS)
    else None
  }

  /** Each message is given exactly when its check fails and every earlier
      one passes, and the form passes exactly when all of them hold. */
  lemma ValidationOrder(form: FormData, users: seq<User>)
    ensures Validate(form, users) == Some(NAMES_REQUIRED) <==> form.firstName == "" || form.lastName == ""
    ensures Validate(form, users) == Some(EMAIL_REQUIRED) <==>
      form.firstName != "" && form.lastName != "" && form.email == ""
    ensures Validate(form, users) == Some(PASSWORD_REQUIRED) <==>
      form.firstName != "" && form.lastName != "" && form.email != "" && form.password == ""
    ensures Validate(form, users) == Some(PASSWORDS_DIFFER) <==>
      form.firstName != "" && form.lastName != "" && form.email != "" && form.password != "" &&
      form.password != form.confirmPassword
    ensures Validate(form, users) == Some(PASSWORD_TOO_SHORT) <==>
      form.firstName != "" && form.lastName != "" && form.email != "" && form.password != "" &&
      form.password == form.confirmPassword && |form.password| < MIN_PASSWORD_LENGTH
    ensures Validate(form, users).None? <==>
      form.firstName != "" && form.lastName != "" && form.email != "" &&
      form.password == form.confirmPassword && |form.password| >= MIN_PASSWORD_LENGTH &&
      forall i :: 0 <= i < |users| ==> users[i].email != form.email
  {
  }

  /** The record sent to `createUser`: the reseller only for a customer
      with a reseller chosen, the company fields for every customer and
      for no other role. */
  function Payload(form: FormData): (d: UserData)
    ensures d.email == form.email && d.password == form.password && d.role == form.role
    ensures d.firstName == form.firstName && d.lastName == form.lastName
    ensures d.resellerId.Some? <==> form.role == CUSTOMER && form.resellerId != ""
    ensures d.resellerId.Some? ==> d.resellerId.value == form.resellerId
    ensures d.companyName.Some? <==> form.role == CUSTOMER
    ensures form.role == CUSTOMER ==>
      d.companyName == Some(form.companyName) && d.companySize == Some(form.companySize) &&
      d.industry == Some(form.industry)
    ensures form.role != CUSTOMER ==> d.companySize.None? && d.industry.None?
  {
    var customer := form.role == CUSTOMER;
    UserData(
      form.email, form.password, form.role, form.firstName, form.lastName,
      if customer && form.resellerId != "" then Some(form.resellerId) else None,
      if customer then Some(form.companyName) else None,
      if customer then Some(form.companySize) else None,
      if customer then Some(form.industry) else None)
  }

  /** A form that passes the checks is accepted by the database unless its
      role is empty: the form's checks cover the database's own. */
  lemma ValidFormIsCreated(form: FormData, users: seq<User>)
    requires Validate(form, users).None? && form.role != ""
    ensures CreateUserError(users, Payload(form)).None?
  {
  }

  /** The open form. */
  class Modal {
    const db: Database
    var form: FormData
    var error: string
    var loading: bool
    var closed: bool

    constructor(db: Database)
      ensures this.db == db && form == InitialForm() && error == "" && !loading && !closed
    {
      this.db := db;
      form := InitialForm();
      error := "";
      loading := false;
      closed := false;
    }

    /** `handleSubmit`: a failing check or a refused creation leaves its
        message in `error` and the users as they were; a created user
        closes the form. Loading is over either way. */
    method HandleSubmit(id: string, now: int)
      modifies this, db
      ensures form == old(form) && !loading && db.companies == old(db.companies)
      ensures var v := Validate(old(form), old(db.users));
        (v.Some? ==> error == v.value && db.users == old(db.users) && closed == old(closed)) &&
        (v.None? && old(form).role == "" ==>
           error == MISSING_FIELDS && db.users == old(db.users) && closed == old(closed)) &&
        (v.None? && old(form).role != "" ==>
           error == "" && closed && db.users == old(db.users) + [NewUser(Payload(old(form)), id, now)])
    {
      error := "";
      loading := true;
      var v := Validate(form, db.users);
      if v.Some? {
        error := v.value;
      } else {
        var data := Payload(form);
        if form.role != "" {
          ValidFormIsCreated(form, db.users);
        }
        var r := db.CreateUser(data, id, now);
        if r.Err? {
          error := r.message;
        } else {
          closed := true;
        }
      }
      loading := false;
    }
  }
}
