/**
 The write path of the index route: one submitted form, dispatched on its
 `_action` tag, becomes one change to the users, the records or the session,
 or an error message with nothing changed. Each branch is a function from the
 store before the request to the store after it and the response.
 */
module Action {
  import opened Models

  const InvalidCredentials: string := "Invalid credentials"
  const EmailAlreadyInUse: string := "Email already in use"
  const MustBeLoggedIn: string := "You must be logged in to perform this action"

  /** What the response's Set-Cookie header does to the session. */
  datatype SessionChange = KeepSession | SetUserId(id: ObjectId) | UnsetUserId

  /** A redirect to the index (perhaps with a new session cookie), or `{ error }`. */
  datatype Response = Redirect(cookie: SessionChange) | Error(msg: string)

  /** The fields of a submitted form; `income` and `percentage` already parsed. */
  datatype FormData = FormData(
    email: string, password: string, firstName: string, lastName: string,
    recordId: ObjectId, income: real, percentage: real, name: string)

  /** The store after a request, and the response to it. */
  datatype Step = Step(next: Store, response: Response)

  predicate HasCredentials(users: map<ObjectId, User>, id: ObjectId, email: string, password: string) {
    id in users && users[id].email == email && users[id].password == password
  }

  predicate EmailInUse(users: map<ObjectId, User>, email: string) {
    exists id :: id in users && users[id].email == email
  }

  /** `login`: find the user with exactly this email and password and put its id in the session. */
  function LoginStep(s: Store, email: string, password: string): (r: Step)
    requires EmailsUnique(s.users)
    ensures r.next.users == s.users && r.next.records == s.records
    ensures r.response.Redirect? <==> exists id :: HasCredentials(s.users, id, email, password)
    ensures r.response.Redirect? ==>
              && r.response.cookie.SetUserId?
              && HasCredentials(s.users, r.response.cookie.id, email, password)
              && r.next.session == Some(r.response.cookie.id)
    ensures r.response.Error? ==> r == Step(s, Error(InvalidCredentials))
  {
    if exists id | id in s.users :: HasCredentials(s.users, id, email, password) then
      var id :| id in s.users && HasCredentials(s.users, id, email, password);
      Step(s.(session := Some(id)), Redirect(SetUserId(id)))
    else
      Step(s, Error(InvalidCredentials))
  }

  /** `createAccount`: refuse a taken email; otherwise save a new user and log it in. */
  function CreateAccountStep(s: Store, email: string, password: string, firstName: string, lastName: string,
                             newId: ObjectId): (r: Step)
    requires newId !in s.users
    ensures r.next.records == s.records
    ensures EmailInUse(s.users, email) ==> r == Step(s, Error(EmailAlreadyInUse))
    ensures !EmailInUse(s.users, email) ==>
              && r.next.users.Keys == s.users.Keys + {newId}
              && r.next.users[newId] == User(email, password, firstName, lastName)
              && (forall id :: id in s.users ==> r.next.users[id] == s.users[id])
              && r.next.session == Some(newId)
              && r.response == Redirect(SetUserId(newId))
  {
    if exists id | id in s.users :: s.users[id].email == email then
      Step(s, Error(EmailAlreadyInUse))
    else
      var users := s.users[newId := User(email, password, firstName, lastName)];
      Step(s.(users := users, session := Some(newId)), Redirect(SetUserId(newId)))
  }

  /** `create`: save a new record owned by the session's user. */
  function CreateStep(s: Store, income: real, percentage: real, name: string, newId: ObjectId): (r: Step)
    requires s.session.Some? && newId !in s.records
    ensures r.next.users == s.users && r.next.session == s.session
    ensures r.next.records.Keys == s.records.Keys + {newId}
    ensures r.next.records[newId] == FinancialRecord(income, percentage, name, s.session.value)
    ensures forall id :: id in s.records ==> r.next.records[id] == s.records[id]
    ensures r.response == Redirect(KeepSession)
  {
    var records := s.records[newId := FinancialRecord(income, percentage, name, s.session.value)];
    Step(s.(records := records), Redirect(KeepSession))
  }

  /** `update`: overwrite income, percentage and name of the record with `recordId`,
      if there is one; whoever owns it. */
  function UpdateStep(s: Store, recordId: ObjectId, income: real, percentage: real, name: string): (r: Step)
    ensures r.next.users == s.users && r.next.session == s.session
    ensures r.next.records.Keys == s.records.Keys
    ensures recordId in s.records ==>
              r.next.records[recordId] == FinancialRecord(income, percentage, name, s.records[recordId].user)
    ensures forall id :: id in s.records && id != recordId ==> r.next.records[id] == s.records[id]
    ensures r.response == Redirect(KeepSession)
  {
    if recordId in s.records then
      var stored := s.records[recordId];
      var records := s.records[recordId := stored.(income := income, percentage := percentage, name := name)];
      Step(s.(records := records), Redirect(KeepSession))
    else
      Step(s, Redirect(KeepSession))
  }

  /** `delete`: remove the record with `recordId`, if there is one; whoever owns it. */
  function DeleteStep(s: Store, recordId: ObjectId): (r: Step)
    ensures r.next.users == s.users && r.next.session == s.session
    ensures r.next.records.Keys == s.records.Keys - {recordId}
    ensures forall id :: id in r.next.records ==> r.next.records[id] == s.records[id]
    ensures r.response == Redirect(KeepSession)
  {
    Step(s.(records := s.records - {recordId}), Redirect(KeepSession))
  }

  /** `logout`: drop the user id from the session. */
  function LogoutStep(s: Store): (r: Step)
    ensures r.next.users == s.users && r.next.records == s.records
    ensures r.next.session.None?
    ensures r.response == Redirect(UnsetUserId)
  {
    Step(s.(session := None), Redirect(UnsetUserId))
  }

  /** The action handler: `login` and `createAccount` run for anyone; every other
      tag needs a session user; record tags change the records; an unknown tag
      from a logged-in user only redirects. */
  function ActionStep(s: Store, actionType: string, form: FormData, newId: ObjectId): (r: Step)
    requires EmailsUnique(s.users) && FreshId(s, newId)
    ensures actionType != "login" && actionType != "createAccount" && s.session.None? ==>
              r == Step(s, Error(MustBeLoggedIn))
    ensures r.response.Error? ==> r.next == s
    ensures actionType != "login" && actionType != "createAccount" && actionType != "logout" ==>
              r.next.users == s.users && r.next.session == s.session
    ensures actionType != "create" && actionType != "update" && actionType != "delete" ==>
              r.next.records == s.records
    ensures s.session.None? && r.next.session.Some? ==>
              actionType == "login" || actionType == "createAccount"
    ensures s.session.Some? && actionType !in ["login", "createAccount", "create", "update", "delete", "logout"] ==>
              r == Step(s, Redirect(KeepSession))
    ensures StoreValid(s) ==> StoreValid(r.next)
  {
    if actionType == "login" then
      LoginStep(s, form.email, form.password)
    else if actionType == "createAccount" then
      CreateAccountStep(s, form.email, form.password, form.firstName, form.lastName, newId)
    else if s.session.None? then
      Step(s, Error(MustBeLoggedIn))
    else if actionType == "create" then
      CreateStep(s, form.income, form.percentage, form.name, newId)
    else if actionType == "update" then
      UpdateStep(s, form.recordId, form.income, form.percentage, form.name)
    else if actionType == "delete" then
      DeleteStep(s, form.recordId)
    else if actionType == "logout" then
      LogoutStep(s)
    else
      Step(s, Redirect(KeepSession))
  }
}
