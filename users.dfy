/** controllers/userController.go: the user list, sign-up and the password check.
    bcrypt is a pair of parameters: `hash` for GenerateFromPassword and
    `matches(hash, password)` for a successful CompareHashAndPassword. */
module Users {
  import opened Common
  import opened Numbers
  import opened Models
  import opened Database
  import opened Helpers

  /** The page size GetUsers uses when recordPerPage is missing or unusable. */
  const DefaultRecordPerPage: int := 10

  /** The offset of a page of users as the Go code computes it: 64-bit `int`
      arithmetic, which wraps around. */
  function StartIndexWrapping(page: int, recordPerPage: int): (r: int)
    requires InInt64(page) && InInt64(recordPerPage)
    ensures InInt64(r)
    ensures InInt64((page - 1) * recordPerPage) ==> r == (page - 1) * recordPerPage
  {
    var shifted := Wrap64(page - 1);
    assert InInt64((page - 1) * recordPerPage) && recordPerPage != 0 ==> shifted == page - 1 by {
      if InInt64((page - 1) * recordPerPage) && recordPerPage != 0 {
        FactorFits(recordPerPage, page - 1);
      }
    }
    Wrap64(shifted * recordPerPage)
  }

  /** Both factors are values the normalisation lets through (they are read from
      the query strings "3" and "4611686018427387904"), yet their 64-bit product
      is negative: the page asked for is passed to the database with a negative
      offset. */
  lemma StartIndexWrapsNegative()
    ensures QueryPositive(FormatInt(3), 1) == 3
    ensures QueryPositive(FormatInt(0x4000_0000_0000_0000), DefaultRecordPerPage) == 0x4000_0000_0000_0000
    ensures StartIndexWrapping(3, 0x4000_0000_0000_0000) < 0
  {
    QueryPositiveReadsDecimal(3, 1);
    QueryPositiveReadsDecimal(0x4000_0000_0000_0000, DefaultRecordPerPage);
  }

  /** The offset of page `page` of `recordPerPage` users, computed exactly: a
      whole number of pages, the page number minus one. */
  function StartIndex(page: int, recordPerPage: int): (r: nat)
    requires page >= 1 && recordPerPage >= 1
    ensures r % recordPerPage == 0 && r / recordPerPage == page - 1
  {
    WholePages(page - 1, recordPerPage);
    (page - 1) * recordPerPage
  }

  /** Every row of the table is on exactly the page its position says: row p is
      item p % n of page p / n + 1. */
  lemma {:induction false} RowOnItsPage<T>(rows: seq<T>, recordPerPage: int, p: nat)
    requires recordPerPage >= 1 && p < |rows|
    ensures var w := Window(rows, StartIndex(p / recordPerPage + 1, recordPerPage), recordPerPage);
            p % recordPerPage < |w| && w[p % recordPerPage] == rows[p]
  {
    var start := StartIndex(p / recordPerPage + 1, recordPerPage);
    assert start == p / recordPerPage * recordPerPage;
    assert start + p % recordPerPage == p;
  }

  /** GetUsers: the total number of users and the requested page of them. */
  method GetUsers(db: Db, recordPerPageParam: string, pageParam: string)
    returns (totalCount: nat, userItems: seq<User>)
    ensures totalCount == |db.users|
    ensures var recordPerPage := QueryPositive(recordPerPageParam, DefaultRecordPerPage);
            var page := QueryPositive(pageParam, 1);
            userItems == Window(RowsById(db.users), StartIndex(page, recordPerPage), recordPerPage)
    ensures |userItems| <= QueryPositive(recordPerPageParam, DefaultRecordPerPage)
    ensures forall u :: u in userItems ==> u in db.users.Values
  {
    var recordPerPage := QueryPositive(recordPerPageParam, DefaultRecordPerPage);
    var page := QueryPositive(pageParam, 1);
    var startIndex := StartIndex(page, recordPerPage);
    totalCount := |db.users|;
    userItems := Window(RowsById(db.users), startIndex, recordPerPage);
  }

  const IncorrectLogin: string := "login or password is incorrect"

  /** VerifyPassword(userPassword, providedPassword): `providedPassword` is the
      stored hash, `userPassword` the password the caller typed. */
  function VerifyPassword(matches: (string, string) -> bool, userPassword: string, providedPassword: string)
    : (r: (bool, string))
    ensures r.0 <==> matches(providedPassword, userPassword)
    ensures r.1 == "" <==> r.0
    ensures !r.0 ==> r.1 == IncorrectLogin
  {
    if matches(providedPassword, userPassword) then (true, "") else (false, IncorrectLogin)
  }

  /** What sign-up stores is what login accepts: if bcrypt's comparison accepts
      every password against its own hash, and the password is read from the
      request (as SignUp intends), the password a user signed up with verifies
      against the stored hash. */
  lemma SignedUpPasswordVerifies(
    matches: (string, string) -> bool, hash: string -> string, payload: User, id: nat, now: int)
    requires forall p :: matches(hash(p), p)
    ensures VerifyPassword(matches, payload.password, NewUser(payload, id, now, hash).password) == (true, "")
  {
  }

  /** c.BindJSON into a User. The password field is tagged `json:"-"`, so
      decoding never sets it: it stays empty whatever the request carries, and
      every other field is taken from the request. */
  function BindUser(request: User): (u: User)
    ensures u.password == ""
    ensures u.(password := request.password) == request
  {
    request.(password := "")
  }

  /** As written, two sign-ups that differ only in the password the client sent
      store the same row, holding the hash of the empty password. */
  lemma SignUpIgnoresPassword(hash: string -> string, request: User, other: User, id: nat, now: int)
    requires other.(password := request.password) == request
    ensures NewUser(BindUser(request), id, now, hash) == NewUser(BindUser(other), id, now, hash)
    ensures NewUser(BindUser(request), id, now, hash).password == hash("")
  {
  }

  /** Login binds its request the same way, so as written any password the
      client types logs in to any account created by sign-up. */
  lemma AnyPasswordLogsIn(
    matches: (string, string) -> bool, hash: string -> string, signUp: User, login: User, id: nat, now: int)
    requires forall p :: matches(hash(p), p)
    ensures VerifyPassword(matches, BindUser(login).password, NewUser(BindUser(signUp), id, now, hash).password) == (true, "")
  {
  }

  predicate EmailTaken(users: map<nat, User>, email: string) {
    exists k :: k in users && users[k].email == email
  }

  /** No two users share an email address. */
  ghost predicate UniqueEmails(users: map<nat, User>) {
    forall j, k :: j in users && k in users && users[j].email == users[k].email ==> j == k
  }

  /** The row SignUp inserts: the payload with its key, the password replaced by
      its hash, and both timestamps. */
  function NewUser(payload: User, id: nat, now: int, hash: string -> string): User {
    payload.(id := id, password := hash(payload.password), createdAt := now, updatedAt := now)
  }

  /** SignUp as written: the request is bound with the password dropped, and
      the email is validated only after the row is inserted, so a malformed
      address is answered with a server error while the new user stays stored. */
  method SignUpAsWritten(db: Db, request: User, now: int, hash: string -> string, isEmail: string -> bool)
    returns (out: Outcome)
    requires db.Valid()
    modifies db`users, db`nextId
    ensures db.Valid()
    ensures EmailTaken(old(db.users), request.email) ==>
              out == Conflict && db.users == old(db.users) && db.nextId == old(db.nextId)
    ensures !EmailTaken(old(db.users), request.email) ==>
              && db.users == old(db.users)[old(db.nextId) := NewUser(BindUser(request), old(db.nextId), now, hash)]
              && db.users[old(db.nextId)].password == hash("")
              && out == (if isEmail(request.email) then Ok else ServerError)
    ensures UniqueEmails(old(db.users)) ==> UniqueEmails(db.users)
  {
    var user := BindUser(request);
    if EmailTaken(db.users, user.email) {
      out := Conflict;
      return;
    }
    user := user.(password := hash(user.password));
    user := user.(createdAt := now);
    user := user.(updatedAt := now);
    var id := db.FreshId();
    user := user.(id := id);
    db.users := db.users[id := user];
    if !isEmail(user.email) {
      out := ServerError;
      return;
    }
    out := Ok;
  }

  /** SignUp as intended: the password is read from the request, and the
      validation comes before the insert, as the comment at the validation step
      says, so a malformed address stores nothing. */
  method SignUp(db: Db, payload: User, now: int, hash: string -> string, isEmail: string -> bool)
    returns (out: Outcome)
    requires db.Valid()
    modifies db`users, db`nextId
    ensures db.Valid()
    ensures EmailTaken(old(db.users), payload.email) ==>
              out == Conflict && db.users == old(db.users) && db.nextId == old(db.nextId)
    ensures !EmailTaken(old(db.users), payload.email) && !isEmail(payload.email) ==>
              out == ServerError && db.users == old(db.users) && db.nextId == old(db.nextId)
    ensures !EmailTaken(old(db.users), payload.email) && isEmail(payload.email) ==>
              && out == Ok
              && db.users == old(db.users)[old(db.nextId) := NewUser(payload, old(db.nextId), now, hash)]
              && db.users[old(db.nextId)].password == hash(payload.password)
    ensures UniqueEmails(old(db.users)) ==> UniqueEmails(db.users)
  {
    if EmailTaken(db.users, payload.email) {
      out := Conflict;
      return;
    }
    if !isEmail(payload.email) {
      out := ServerError;
      return;
    }
    var user := payload;
    user := user.(password := hash(payload.password));
    user := user.(createdAt := now);
    user := user.(updatedAt := now);
    var id := db.FreshId();
    user := user.(id := id);
    db.users := db.users[id := user];
    out := Ok;
  }
}
