/**
 The index route's handler as an object: the two collections and the session's
 user id are fields that each action updates in place.
 */
module Index {
  import opened Models
  import opened Loader
  import opened Action

  class Handler {
    var users: map<ObjectId, User>
    var records: map<ObjectId, FinancialRecord>
    var session: Option<ObjectId>

    /** The store these fields hold. */
    function Snapshot(): Store
      reads this
    {
      Store(users, records, session)
    }

    ghost predicate Valid()
      reads this
    {
      StoreValid(Snapshot())
    }

    /** An empty database and a request without a session cookie. */
    constructor ()
      ensures Valid() && Snapshot() == Store(map[], map[], None)
    {
      users, records, session := map[], map[], None;
    }

    /** The loader (a read: no field changes). */
    method Read(order: seq<ObjectId>) returns (data: LoaderData)
      requires IsScanOf(order, records)
      ensures data == Load(Snapshot(), order)
    {
      if session.None? {
        return LoaderData(false, []);
      }
      var docs := FindByUser(records, session.value, order);
      data := LoaderData(true, AddTransferAmounts(docs));
    }

    method Login(email: string, password: string) returns (resp: Response)
      requires Valid()
      modifies this
      ensures Valid()
      ensures Step(Snapshot(), resp) == LoginStep(old(Snapshot()), email, password)
    {
      if !exists id | id in users :: HasCredentials(users, id, email, password) {
        return Error(InvalidCredentials);
      }
      var id :| id in users && HasCredentials(users, id, email, password);
      session := Some(id);
      resp := Redirect(SetUserId(id));
    }

    method CreateAccount(email: string, password: string, firstName: string, lastName: string, newId: ObjectId)
      returns (resp: Response)
      requires Valid() && FreshId(Snapshot(), newId)
      modifies this
      ensures Valid()
      ensures Step(Snapshot(), resp) ==
              CreateAccountStep(old(Snapshot()), email, password, firstName, lastName, newId)
    {
      if exists id | id in users :: users[id].email == email {
        return Error(EmailAlreadyInUse);
      }
      users := users[newId := User(email, password, firstName, lastName)];
      session := Some(newId);
      resp := Redirect(SetUserId(newId));
    }

    method Create(income: real, percentage: real, name: string, newId: ObjectId) returns (resp: Response)
      requires Valid() && session.Some? && FreshId(Snapshot(), newId)
      modifies this
      ensures Valid()
      ensures Step(Snapshot(), resp) == CreateStep(old(Snapshot()), income, percentage, name, newId)
    {
      records := records[newId := FinancialRecord(income, percentage, name, session.value)];
      resp := Redirect(KeepSession);
    }

    method Update(recordId: ObjectId, income: real, percentage: real, name: string) returns (resp: Response)
      requires Valid() && session.Some?
      modifies this
      ensures Valid()
      ensures Step(Snapshot(), resp) == UpdateStep(old(Snapshot()), recordId, income, percentage, name)
    {
      if recordId in records {
        var stored := records[recordId];
        records := records[recordId := stored.(income := income, percentage := percentage, name := name)];
      }
      resp := Redirect(KeepSession);
    }

    method Delete(recordId: ObjectId) returns (resp: Response)
      requires Valid() && session.Some?
      modifies this
      ensures Valid()
      ensures Step(Snapshot(), resp) == DeleteStep(old(Snapshot()), recordId)
    {
      records := records - {recordId};
      resp := Redirect(KeepSession);
    }

    method Logout() returns (resp: Response)
      requires Valid() && session.Some?
      modifies this
      ensures Valid()
      ensures Step(Snapshot(), resp) == LogoutStep(old(Snapshot()))
    {
      session := None;
      resp := Redirect(UnsetUserId);
    }

    /** The action: the `_action` dispatch and the session gate in front of the
        record actions and logout. */
    method Action(actionType: string, form: FormData, newId: ObjectId) returns (resp: Response)
      requires Valid() && FreshId(Snapshot(), newId)
      modifies this
      ensures Valid()
      ensures Step(Snapshot(), resp) == ActionStep(old(Snapshot()), actionType, form, newId)
    {
      if actionType == "login" {
        resp := Login(form.email, form.password);
      } else if actionType == "createAccount" {
        resp := CreateAccount(form.email, form.password, form.firstName, form.lastName, newId);
      } else if session.None? {
        resp := Error(MustBeLoggedIn);
      } else if actionType == "create" {
        resp := Create(form.income, form.percentage, form.name, newId);
      } else if actionType == "update" {
        resp := Update(form.recordId, form.income, form.percentage, form.name);
      } else if actionType == "delete" {
        resp := Delete(form.recordId);
      } else if actionType == "logout" {
        resp := Logout();
      } else {
        resp := Redirect(KeepSession);
      }
    }
  }
}
