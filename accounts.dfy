/**
 * The account decisions of backend/src/controllers/authController.js: a
 * registration inserts into the account store after its checks, a login is a
 * lookup and a comparison. Password hashing and token signing are not part of
 * this model: a password is compared as stored, and a token just names the
 * account it was issued for.
 */
module Accounts {
  import opened Wrappers
  import opened Models

  const CITIZEN: string := "citizen"
  const ADMIN: string := "admin"
  const DEPARTMENT_ROLE: string := "department"

  const MISSING_FIELDS: string := "Name, email and password are required"
  const USER_EXISTS: string := "User already exists"
  const INVALID_CREDENTIALS: string := "Invalid email or password"

  /** A User document; it is also what the `protect` middleware puts in req.user. */
  datatype Account = Account(id: UserId, name: string, email: string, password: string, role: string)

  datatype Token = Token(subject: UserId)

  /** The JSON body a successful register or login returns. */
  datatype Session = Session(id: UserId, name: string, email: string, role: string, token: Token)

  function SessionOf(a: Account): (s: Session)
    ensures s.id == a.id && s.token == Token(a.id)
  {
    Session(a.id, a.name, a.email, a.role, Token(a.id))
  }

  /** User.findOne({ email }): the first account with exactly this email. */
  function FindByEmail(accounts: seq<Account>, email: string): (r: Option<nat>)
    ensures r.Some? ==> r.value < |accounts| && accounts[r.value].email == email
    ensures r.Some? ==> forall j :: 0 <= j < r.value ==> accounts[j].email != email
    ensures r.None? ==> forall j :: 0 <= j < |accounts| ==> accounts[j].email != email
  {
    if accounts == [] then None
    else if accounts[0].email == email then Some(0)
    else match FindByEmail(accounts[1..], email)
      case None => None
      case Some(k) => Some(k + 1)
  }

  /** User.findById. */
  function FindById(accounts: seq<Account>, id: UserId): (r: Option<Account>)
    ensures r.Some? ==> r.value in accounts && r.value.id == id
    ensures r.None? ==> forall j :: 0 <= j < |accounts| ==> accounts[j].id != id
  {
    if accounts == [] then None
    else if accounts[0].id == id then Some(accounts[0])
    else FindById(accounts[1..], id)
  }

  /** The User collection: ids below the next id to issue, ids and emails unique. */
  predicate AccountsValid(accounts: seq<Account>, nextId: nat) {
    && (forall i :: 0 <= i < |accounts| ==> accounts[i].id < nextId)
    && (forall i, j :: 0 <= i < j < |accounts| ==> accounts[i].id != accounts[j].id)
    && (forall i, j :: 0 <= i < j < |accounts| ==> accounts[i].email != accounts[j].email)
  }

  /**
   * authUser (authController.js:40-61): the same 401 for an unknown email and
   * for a wrong password, so a caller cannot tell the two apart.
   */
  function AuthUser(accounts: seq<Account>, email: string, password: string): (r: Response<Session>)
    ensures r.Ok? || r == Unauthorized(INVALID_CREDENTIALS)
    ensures r.Ok? <==> exists i :: 0 <= i < |accounts| && accounts[i].email == email
                                   && accounts[i].password == password
                                   && forall j :: 0 <= j < i ==> accounts[j].email != email
    ensures r.Ok? ==> exists a :: a in accounts && a.email == email && a.password == password && r.value == SessionOf(a)
  {
    match FindByEmail(accounts, email)
    case None => Unauthorized(INVALID_CREDENTIALS)
    case Some(i) =>
      if accounts[i].password != password then Unauthorized(INVALID_CREDENTIALS)
      else Ok(SessionOf(accounts[i]))
  }

  /** With unique emails, a login succeeds exactly for the one account's own password. */
  lemma LoginFindsTheAccount(accounts: seq<Account>, nextId: nat, i: nat, password: string)
    requires AccountsValid(accounts, nextId)
    requires i < |accounts|
    ensures AuthUser(accounts, accounts[i].email, password).Ok? <==> accounts[i].password == password
    ensures accounts[i].password == password ==> AuthUser(accounts, accounts[i].email, password) == Ok(SessionOf(accounts[i]))
  {
    var r := FindByEmail(accounts, accounts[i].email);
    assert r.Some?;
    assert !(r.value < i) && !(i < r.value);
  }

  /** The User collection, which registration appends to. */
  class AccountStore {
    var accounts: seq<Account>
    var nextId: UserId

    ghost predicate Valid()
      reads this
    {
      AccountsValid(accounts, nextId)
    }

    constructor ()
      ensures Valid() && accounts == [] && nextId == 0
    {
      accounts := [];
      nextId := 0;
    }

    /**
     * registerUser (authController.js:8-37): 400 for a missing field, 400 for a
     * known email, otherwise a new account whose role is the supplied one or
     * "citizen". Any supplied role is taken, "admin" included.
     */
    method RegisterUser(name: string, email: string, password: string, role: string) returns (res: Response<Session>)
      requires Valid()
      modifies this
      ensures Valid()
      ensures name == "" || email == "" || password == "" ==>
                res == BadRequest(MISSING_FIELDS) && accounts == old(accounts) && nextId == old(nextId)
      ensures name != "" && email != "" && password != "" && FindByEmail(old(accounts), email).Some? ==>
                res == BadRequest(USER_EXISTS) && accounts == old(accounts) && nextId == old(nextId)
      ensures name != "" && email != "" && password != "" && FindByEmail(old(accounts), email).None? ==>
                var a := Account(old(nextId), name, email, password, if role == "" then CITIZEN else role);
                && res == Created(SessionOf(a))
                && accounts == old(accounts) + [a]
                && nextId == old(nextId) + 1
                && AuthUser(accounts, email, password) == Ok(SessionOf(a))
    {
      if name == "" || email == "" || password == "" {
        return BadRequest(MISSING_FIELDS);
      }
      if FindByEmail(accounts, email).Some? {
        return BadRequest(USER_EXISTS);
      }
      var a := Account(nextId, name, email, password, if role == "" then CITIZEN else role);
      accounts := accounts + [a];
      nextId := nextId + 1;
      LoginFindsTheAccount(accounts, nextId, |accounts| - 1, password);
      res := Created(SessionOf(a));
    }
  }
}
