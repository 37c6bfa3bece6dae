/**
 Properties that relate several requests: what a later request observes of an
 earlier one, and a complete session driven through the handler object, with
 its outcome proved.
 */
module Properties {
  import opened Models
  import opened Loader
  import opened Action
  import opened Index

  /** After `logout` (by anyone, logged in or not) the read path is anonymous. */
  lemma LogoutThenLoadIsAnonymous(s: Store, form: FormData, newId: ObjectId, order: seq<ObjectId>)
    requires EmailsUnique(s.users) && FreshId(s, newId) && IsScanOf(order, s.records)
    ensures Load(ActionStep(s, "logout", form, newId).next, order) == LoaderData(false, [])
  {
  }

  /** A record created by the session's user is listed by the next read, with the
      submitted fields and its derived transfer amount. */
  lemma CreateThenLoadListsRecord(s: Store, form: FormData, newId: ObjectId, order: seq<ObjectId>)
    requires EmailsUnique(s.users) && FreshId(s, newId) && s.session.Some?
    requires IsScanOf(order, ActionStep(s, "create", form, newId).next.records)
    ensures var views := Load(ActionStep(s, "create", form, newId).next, order).financialRecords;
            exists i :: 0 <= i < |views| && views[i] ==
              RecordView(newId, form.income, form.percentage, form.name, s.session.value,
                         TransferAmount(form.income, form.percentage))
  {
  }

  /** The right email with a wrong password is refused and changes nothing. */
  lemma WrongPasswordIsRejected(s: Store, id: ObjectId, password: string)
    requires EmailsUnique(s.users) && id in s.users && password != s.users[id].password
    ensures LoginStep(s, s.users[id].email, password) == Step(s, Error(InvalidCredentials))
  {
  }

  /** A taken email never yields a second account. */
  lemma TakenEmailAddsNoUser(s: Store, form: FormData, newId: ObjectId)
    requires EmailsUnique(s.users) && FreshId(s, newId) && EmailInUse(s.users, form.email)
    ensures ActionStep(s, "createAccount", form, newId) == Step(s, Error(EmailAlreadyInUse))
  {
  }

  /** Logging in with the credentials an account was just created with finds that account. */
  lemma CreateAccountThenLogin(s: Store, form: FormData, newId: ObjectId)
    requires StoreValid(s) && FreshId(s, newId) && !EmailInUse(s.users, form.email)
    ensures var next := ActionStep(s, "createAccount", form, newId).next;
            EmailsUnique(next.users) &&
            LoginStep(next, form.email, form.password) ==
              Step(next.(session := Some(newId)), Redirect(SetUserId(newId)))
  {
  }

  /** An update naming no stored record only redirects. */
  lemma UpdateOfMissingRecordChangesNothing(s: Store, form: FormData, newId: ObjectId)
    requires EmailsUnique(s.users) && FreshId(s, newId) && s.session.Some? && form.recordId !in s.records
    ensures ActionStep(s, "update", form, newId) == Step(s, Redirect(KeepSession))
  {
  }

  /** Deleting the same id twice is the same as deleting it once. */
  lemma DeleteTwiceIsDeleteOnce(s: Store, form: FormData, newId: ObjectId)
    requires EmailsUnique(s.users) && FreshId(s, newId)
    ensures var once := ActionStep(s, "delete", form, newId);
            EmailsUnique(once.next.users) && FreshId(once.next, newId) &&
            ActionStep(once.next, "delete", form, newId) == once
  {
  }

  /** Create an account, add one record, read it back: the record's transfer
      amount is 20 percent of 1000. */
  method AliceScenario() returns (data: LoaderData)
    ensures data.loggedIn && |data.financialRecords| == 1
    ensures data.financialRecords[0].name == "Emergency Fund"
    ensures data.financialRecords[0].transferAmount == 200.0
  {
    var h := new Handler();
    var form := FormData("alice@example.com", "pw1", "Alice", "A", 0, 1000.0, 20.0, "Emergency Fund");
    var signedUp := h.Action("createAccount", form, 0);
    var created := h.Action("create", form, 1);
    data := h.Read([1]);
  }
}
