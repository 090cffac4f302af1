/** The user table behind the portal's server actions and credential check:
    records keyed by id, with a unique index on email (the two lookups the
    code performs with `findUnique`). */
module Users {
  import opened Common

  /** A stored user. Fields that the signup action passes through without
      checking may be absent (`formData.get` returns `null`). */
  datatype User = User(
    id: string,
    email: string,
    passwordHash: string,
    firstName: string,
    lastName: Option<string>,
    gender: string,
    dob: string,
    zipCode: string,
    insuranceCompany: Option<string>,
    servicePreference: string,
    emergencyName: Option<string>,
    emergencyPhone: Option<string>,
    iConsent: bool)

  /** The table: records by id, and the unique email index. */
  datatype Tables = Tables(byId: map<string, User>, byEmail: map<string, string>) {

    /** Every record is filed under its own id, and the email index maps each
        stored email to exactly the record that carries it. */
    ghost predicate Consistent() {
      && (forall id :: id in byId ==> byId[id].id == id && byId[id].email in byEmail && byEmail[byId[id].email] == id)
      && (forall e :: e in byEmail ==> byEmail[e] in byId && byId[byEmail[e]].email == e)
    }

    /** `findUnique({ where: { id } })`. */
    function FindById(id: string): (r: Option<User>)
      ensures r.Some? <==> id in byId
      ensures r.Some? ==> r.value == byId[id]
    {
      if id in byId then Some(byId[id]) else None
    }

    /** `findUnique({ where: { email } })`. In a consistent table it finds a
        record exactly when some stored record carries that email. */
    function FindByEmail(email: string): (r: Option<User>)
      ensures r.Some? ==> r.value.email == email || !Consistent()
      ensures Consistent() ==> (r.Some? <==> exists id :: id in byId && byId[id].email == email)
    {
      if email in byEmail && byEmail[email] in byId then Some(byId[byEmail[email]]) else None
    }
  }
}
