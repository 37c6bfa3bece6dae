/**
 The persisted shapes of the financial tracker: the two document collections
 (users and financial records) and the session's optional user id, taken
 together as the abstract store that every request reads and writes.
 */
module Models {

  datatype Option<T> = None | Some(value: T)

  /** A document identifier. The store hands out fresh ones; no scheme is assumed. */
  type ObjectId = nat

  /** A User document (email, password, first and last name). */
  datatype User = User(email: string, password: string, firstName: string, lastName: string)

  /** A FinancialRecord document; `user` references the owning User. */
  datatype FinancialRecord = FinancialRecord(income: real, percentage: real, name: string, user: ObjectId)

  /** Everything one request can observe: both collections, keyed by document id,
      and the user id carried by the request's session cookie. */
  datatype Store = Store(
    users: map<ObjectId, User>,
    records: map<ObjectId, FinancialRecord>,
    session: Option<ObjectId>)

  /** No two users hold the same email (the unique index on `email`). */
  predicate EmailsUnique(users: map<ObjectId, User>) {
    forall a, b :: a in users && b in users && users[a].email == users[b].email ==> a == b
  }

  /** The store's consistency: emails are unique, the session names an existing
      user, and every record is owned by an existing user. */
  ghost predicate StoreValid(s: Store) {
    && EmailsUnique(s.users)
    && (s.session.Some? ==> s.session.value in s.users)
    && (forall id :: id in s.records ==> s.records[id].user in s.users)
  }

  /** An id the store may assign to a newly saved document of this request. */
  predicate FreshId(s: Store, id: ObjectId) {
    id !in s.users && id !in s.records
  }

  /** Some number bounds every id in use. */
  lemma {:induction false} UpperBound(used: set<ObjectId>) returns (b: ObjectId)
    ensures forall x :: x in used ==> x < b
    decreases used
  {
    if used == {} {
      b := 0;
    } else {
      var x :| x in used;
      var b' := UpperBound(used - {x});
      b := if b' > x then b' else x + 1;
      assert forall y :: y in used ==> y == x || y in used - {x};
    }
  }

  /** Whatever the store holds, a fresh id exists, so id generation never blocks
      account or record creation. */
  lemma FreshIdExists(s: Store) returns (id: ObjectId)
    ensures FreshId(s, id)
  {
    id := UpperBound(s.users.Keys + s.records.Keys);
  }
}
