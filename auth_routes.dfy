/**
 * Registration and login, backend/routes/authRoutes.js. Signing a token
 * (`jwt.sign` with the server secret and a one-hour expiry) and checking a
 * password against the stored one (`user.matchPassword`) are oracles passed in.
 */
module AuthRoutes {
  import opened Wrappers
  import opened Strings
  import opened AuthMiddleware

  type Signer = Claims -> string

  datatype User = User(id: UserId, name: string, email: string, password: string, role: string)

  datatype AuthError =
    | MissingCredentials
    | UserExists
    | BadCredentials
    | ServerError
  {
    function Status(): nat {
      match this
      case MissingCredentials => 400
      case UserExists => 400
      case BadCredentials => 401
      case ServerError => 500
    }
  }

  /** A request body; a `role` the client sends is ignored. */
  datatype Credentials = Credentials(
    name: Option<string>,
    email: Option<string>,
    password: Option<string>,
    role: Option<string>)

  /** The form an e-mail is stored and looked up in: lower case, no surrounding white space. */
  function NormalizeEmail(email: string): (r: string)
    ensures r != [] ==> !IsSpace(r[0]) && !IsSpace(r[|r| - 1])
    ensures forall i :: 0 <= i < |r| ==> LowerChar(r[i]) == r[i]
  {
    TrimOfLowerIsLower(email);
    Trim(ToLower(email))
  }

  lemma NormalizeEmailIdempotent(email: string)
    ensures NormalizeEmail(NormalizeEmail(email)) == NormalizeEmail(email)
  {
    var n := NormalizeEmail(email);
    assert ToLower(n) == n;
    TrimUnchanged(n);
  }

  /** `User.findOne({ email })`: the first user with that e-mail. */
  function FindByEmail(users: seq<User>, email: string): (r: Option<nat>)
    ensures r.Some? ==> r.value < |users| && users[r.value].email == email
    ensures r.Some? ==> forall k :: 0 <= k < r.value ==> users[k].email != email
    ensures r.None? <==> forall k :: 0 <= k < |users| ==> users[k].email != email
  {
    if users == [] then None
    else if users[0].email == email then Some(0)
    else match FindByEmail(users[1..], email)
      case None => None
      case Some(k) => Some(k + 1)
  }

  /** The first match of an e-mail nobody had is the account just appended. */
  lemma {:induction false} FindByEmailAppended(users: seq<User>, u: User)
    requires forall k :: 0 <= k < |users| ==> users[k].email != u.email
    ensures FindByEmail(users + [u], u.email) == Some(|users|)
  {
    if users != [] {
      assert (users + [u])[1..] == users[1..] + [u];
      FindByEmailAppended(users[1..], u);
    }
  }

  /** Ids are positions, e-mails are normalised and unique. */
  ghost predicate ValidUsers(users: seq<User>) {
    && (forall i :: 0 <= i < |users| ==> users[i].id == i && NormalizeEmail(users[i].email) == users[i].email)
    && (forall i, j :: 0 <= i < j < |users| ==> users[i].email != users[j].email)
  }

  lemma AppendKeepsValid(users: seq<User>, u: User)
    requires ValidUsers(users)
    requires u.id == |users| && NormalizeEmail(u.email) == u.email
    requires forall k :: 0 <= k < |users| ==> users[k].email != u.email
    ensures ValidUsers(users + [u])
  {
    var r := users + [u];
    forall i | 0 <= i < |r|
      ensures r[i].id == i && NormalizeEmail(r[i].email) == r[i].email
    {
      if i < |users| { assert r[i] == users[i]; } else { assert r[i] == u; }
    }
    forall i, j | 0 <= i < j < |r|
      ensures r[i].email != r[j].email
    {
      assert r[i] == users[i];
      if j < |users| { assert r[j] == users[j]; } else { assert r[j] == u; }
    }
  }

  /** The user collection. */
  class UserCollection {
    var users: seq<User>

    ghost predicate Valid()
      reads this
    {
      ValidUsers(users)
    }

    constructor ()
      ensures Valid() && users == []
    {
      users := [];
    }
  }

  /** `POST /register`: a new account always gets the role "user", and the
      answer is a token for it. */
  method Register(coll: UserCollection, body: Credentials, sign: Signer) returns (r: Result<string, AuthError>)
    requires coll.Valid()
    modifies coll
    ensures coll.Valid()
    ensures !(Given(body.name) && Given(body.email) && Given(body.password)) ==>
      r == Failure(MissingCredentials) && coll.users == old(coll.users)
    ensures Given(body.name) && Given(body.email) && Given(body.password)
            && FindByEmail(old(coll.users), NormalizeEmail(body.email.value)).Some? ==>
      r == Failure(UserExists) && coll.users == old(coll.users)
    ensures Given(body.name) && Given(body.email) && Given(body.password)
            && FindByEmail(old(coll.users), NormalizeEmail(body.email.value)).None? ==>
      && coll.users == old(coll.users) + [User(|old(coll.users)|, Trim(body.name.value),
                                               NormalizeEmail(body.email.value), body.password.value, "user")]
      && r == Success(sign(Claims(|old(coll.users)|, "user")))
  {
    if !Given(body.name) || !Given(body.email) || !Given(body.password) {
      return Failure(MissingCredentials);
    }
    var email := NormalizeEmail(body.email.value);
    if FindByEmail(coll.users, email).Some? {
      return Failure(UserExists);
    }
    NormalizeEmailIdempotent(body.email.value);
    var user := User(|coll.users|, Trim(body.name.value), email, body.password.value, "user");
    AppendKeepsValid(coll.users, user);
    coll.users := coll.users + [user];
    r := Success(sign(Claims(user.id, user.role)));
  }

  /** `POST /login`: a token carrying the account's id and role, for a known
      e-mail with the right password. */
  function Login(users: seq<User>, email: Option<string>, password: Option<string>,
                 matches: (User, Option<string>) -> bool, sign: Signer): (r: Result<string, AuthError>)
    ensures email.None? ==> r == Failure(ServerError)
    ensures r.Success? <==>
      email.Some? && FindByEmail(users, NormalizeEmail(email.value)).Some?
      && matches(users[FindByEmail(users, NormalizeEmail(email.value)).value], password)
    ensures r.Success? ==>
      var u := users[FindByEmail(users, NormalizeEmail(email.value)).value];
      r.value == sign(Claims(u.id, u.role))
    ensures r.Failure? && email.Some? ==> r.error == BadCredentials
  {
    if email.None? then Failure(ServerError)
    else match FindByEmail(users, NormalizeEmail(email.value))
      case None => Failure(BadCredentials)
      case Some(i) =>
        if !matches(users[i], password) then Failure(BadCredentials)
        else Success(sign(Claims(users[i].id, users[i].role)))
  }

  /** Logging in after registering, with any spelling of the e-mail that
      normalises to the same address and a matching password, gives a token
      for the new account with role "user". */
  lemma LoginAfterRegister(users: seq<User>, name: string, email: string, password: string,
                           typed: string, given: Option<string>,
                           matches: (User, Option<string>) -> bool, sign: Signer)
    requires forall k :: 0 <= k < |users| ==> users[k].email != NormalizeEmail(email)
    requires NormalizeEmail(typed) == NormalizeEmail(email)
    requires matches(User(|users|, Trim(name), NormalizeEmail(email), password, "user"), given)
    ensures Login(users + [User(|users|, Trim(name), NormalizeEmail(email), password, "user")],
                  Some(typed), given, matches, sign)
            == Success(sign(Claims(|users|, "user")))
  {
    FindByEmailAppended(users, User(|users|, Trim(name), NormalizeEmail(email), password, "user"));
  }
}
