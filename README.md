# Financial tracker: the index route as a verified state machine

The application keeps users and their "savings tactic" records (income, savings
percentage, name) in two document collections, and remembers the logged-in user
by an id in a signed session cookie. All of its logic sits in one route,
`app/routes/_index.jsx`:

- the **loader** (the read) answers anonymously when the session has no user,
  and otherwise lists that user's records, each with the derived
  `transferAmount = income * percentage / 100`;
- the **action** (the write) dispatches on the form's `_action` tag. `login` and
  `createAccount` run for anyone. `create`, `update`, `delete` and `logout` need a
  session user. Any other tag from a logged-in user only redirects.

The model treats one request as a step over an abstract store: the users table,
the records table (both `map`s keyed by document id) and the session's optional
user id.

- `models.dfy` (module `Models`) holds the document shapes of `app/models/User.js`
  and `app/models/FinancialRecord.js`, the `Store`, and its consistency
  predicate `StoreValid`. That predicate says three things. Emails are unique,
  as the unique index on `email` guarantees. The session names an existing user.
  Every record's owner exists.
- `loader.dfy` (module `Loader`) is the read path. `FindByUser` is the query by
  owner. `AddTransferAmounts` is the `map` that adds the derived field. `Load`
  is the loader.
- `action.dfy` (module `Action`) has one pure step function per branch of the
  action and `ActionStep`, the dispatch with its session gate. The three error
  messages are the source's exact strings.
- `handler.dfy` (module `Index`) is the imperative form. Class `Handler` has
  `users`, `records` and `session` fields and one method per action. Each method
  updates the fields in place, and its contract ties the new fields and the
  response to the step function applied to the old fields. Every method keeps
  `Valid()`.
- `properties.dfy` (module `Properties`) relates several requests: logout then
  read, create then read, account creation then login, deleting twice. It also
  drives one complete session through a `Handler` and proves its outcome.

The store assigns fresh document ids by a scheme the model does not fix. Every
creating call takes the id as a parameter `newId` that must be unused in both
tables. `Models.FreshIdExists` shows such an id always exists. A query's result
order also belongs to the store. The loader therefore takes the store's scan
order as a parameter `order`, which lists every stored record id exactly once.
The model promises nothing about order beyond that.

The model follows the route as written:

- The route performs no validation of income, percentage or name, so there is no
  validation-error outcome.
- `update` and `delete` on an id that names no record do nothing and still
  redirect, so there is no not-found outcome. A second delete of the same id is
  therefore the same as the first (`DeleteTwiceIsDeleteOnce`).
- Neither `update` nor `delete` checks that the record belongs to the session's
  user. Any logged-in user can change or remove any record by id.
- `logout` without a session user is refused by the login gate like the record
  actions.

## Model

| member | source | states |
|---|---|---|
| Models.FreshIdExists | app/routes/_index.jsx:67-68 | whatever both tables hold, some document id is unused in both, so the store can always give a new user or record an id |
| Loader.FindByUser | app/routes/_index.jsx:34 | the owner query returns at most one document per scanned id |
| Loader.FindByUserSound | app/routes/_index.jsx:34 | every document the owner query returns is a stored record, with its stored fields, owned by the queried user, under a scanned id |
| Loader.FindByUserComplete | app/routes/_index.jsx:34 | every scanned record owned by the queried user is among the documents returned |
| Loader.FindByUserDistinct | app/routes/_index.jsx:34 | when the scan lists each id once, no record is returned twice |
| Loader.AddTransferAmounts | app/routes/_index.jsx:35-38 | one view per document, in the same order; each keeps the document's id, income, percentage, name and owner and gains transferAmount = income * percentage / 100 |
| Loader.FoundOwnedRecords | app/routes/_index.jsx:34-38 | the query followed by the derivation lists exactly the user's records, each once, with stored fields and the derived transfer amount |
| Loader.Load | app/routes/_index.jsx:23-41 | loggedIn holds exactly when the session has a user; without one the list is empty; with one it lists exactly that user's records, each once, with their stored fields and transferAmount = income * percentage / 100 |
| Action.LoginStep | app/routes/_index.jsx:60-75 | login redirects exactly when some user has this email and this password; the session then holds that user's id and the redirect's cookie sets it; otherwise the answer is "Invalid credentials" and the store is unchanged; the tables never change |
| Action.CreateAccountStep | app/routes/_index.jsx:63-75 | a taken email gives "Email already in use" with nothing changed; a free one adds exactly one user with the given fields under the new id, keeps every existing user, sets the session to the new id and redirects with that cookie; records never change |
| Action.CreateStep | app/routes/_index.jsx:88-95 | adds exactly one record under the new id, with the given income, percentage and name, owned by the session's user; all earlier records, the users and the session are unchanged |
| Action.UpdateStep | app/routes/_index.jsx:86-87 | the record with the id, if any, gets the new income, percentage and name and keeps its owner, with no ownership check; no record is added or removed, every other record is unchanged, users and session are unchanged, and the answer is a redirect |
| Action.DeleteStep | app/routes/_index.jsx:97-99 | removes the record with the id, if any, and nothing else; users and session are unchanged; the answer is a redirect |
| Action.LogoutStep | app/routes/_index.jsx:100-105 | clears the session's user id and redirects with a cookie that unsets it; both tables are unchanged |
| Action.ActionStep | app/routes/_index.jsx:44-109 | without a session user, every tag but login and createAccount gets "You must be logged in to perform this action" with nothing changed; an error never changes the store; only login, createAccount and logout touch the users or the session; only create, update and delete touch the records; an anonymous session gains a user only through login or createAccount; an unknown tag with a session user redirects and changes nothing; the store's consistency is preserved |
| Index.Handler.Read | app/routes/_index.jsx:23-41 | the loader over the object's fields returns Load of the current store and changes no field |
| Index.Handler.Login | app/routes/_index.jsx:60-75 | updates the fields and answers exactly as LoginStep on the old fields, and keeps the store consistent |
| Index.Handler.CreateAccount | app/routes/_index.jsx:63-75 | updates the fields and answers exactly as CreateAccountStep on the old fields, and keeps the store consistent |
| Index.Handler.Create | app/routes/_index.jsx:88-95 | updates the fields and answers exactly as CreateStep on the old fields, and keeps the store consistent |
| Index.Handler.Update | app/routes/_index.jsx:86-87 | updates the fields and answers exactly as UpdateStep on the old fields, and keeps the store consistent |
| Index.Handler.Delete | app/routes/_index.jsx:97-99 | updates the fields and answers exactly as DeleteStep on the old fields, and keeps the store consistent |
| Index.Handler.Logout | app/routes/_index.jsx:100-105 | updates the fields and answers exactly as LogoutStep on the old fields, and keeps the store consistent |
| Index.Handler.Action | app/routes/_index.jsx:44-109 | the dispatch over the object's fields does exactly what ActionStep does on the old fields, and keeps the store consistent |
| Properties.LogoutThenLoadIsAnonymous | app/routes/_index.jsx:100-105 | after a logout request, logged in or not, the next read is anonymous with an empty list |
| Properties.CreateThenLoadListsRecord | app/routes/_index.jsx:88-95 | after create, the next read lists the new record with the submitted fields, the session's user as owner and its transfer amount |
| Properties.WrongPasswordIsRejected | app/routes/_index.jsx:61-62 | a user's email with a different password gives "Invalid credentials" and changes nothing |
| Properties.TakenEmailAddsNoUser | app/routes/_index.jsx:64-65 | createAccount with an email some user holds gives "Email already in use" and changes nothing |
| Properties.CreateAccountThenLogin | app/routes/_index.jsx:60-72 | logging in with the email and password an account was just created with finds that account and sets the session to its id |
| Properties.UpdateOfMissingRecordChangesNothing | app/routes/_index.jsx:86-87 | an update naming no stored record changes nothing and redirects |
| Properties.DeleteTwiceIsDeleteOnce | app/routes/_index.jsx:97-99 | repeating a delete of the same id changes nothing more and gives the same redirect |
| Properties.AliceScenario | app/routes/_index.jsx:23-109 | on an empty store, creating an account, creating a record of income 1000 at 20 percent and reading gives one record with transfer amount 200 |

## Left out

- The `Index` React component (app/routes/_index.jsx:111-189) and the components under app/components: rendering and client state only. That includes `toFixed` and date formatting.
- Cookie mechanics of app/utils/sessions.js (signing, secret, `maxAge`, `sameSite`, `httpOnly`). The session is the `session` field. A redirect's `SessionChange` says what its Set-Cookie header does.
- app/db/connection.js: connecting to the database is I/O.
- Mongoose casting and validation. The model covers none of these failures: a form field that is absent, `parseFloat` giving NaN, a `recordId` that is not a valid ObjectId, or a required field that fails validation on save. Form fields are plain strings and already-parsed reals.
- Timestamps (`createdAt`, `updatedAt`) and the `financialRecords` array of User.js (lines 22-25). The route never reads or writes that array.
- ObjectId generation: the new id is a parameter that must be fresh (see `Models.FreshIdExists`).
- The order of `find` results: the store's scan order is the loader's `order` parameter.
- Floating point: income, percentage and the transfer amount are exact reals. IEEE rounding is not modelled.
- `async`/`await` and concurrent requests: each request runs to completion alone.
- Index.Handler.Create, Index.Handler.Update, Index.Handler.Delete, Index.Handler.Logout: each requires a session user. The only caller, `Action`, reaches them after the login gate, and the anonymous case is modelled there.
- Action.ActionStep, Action.LoginStep: require unique emails, as the unique index on `email` in User.js (lines 5-9) provides. With that index, login's `findOne` has at most one match.
