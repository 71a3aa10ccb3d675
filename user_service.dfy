/** The single-account credential store (service/UserService.java).
    The user repository behind it is a sequence of accounts in the order
    they were saved; the service keeps it at no more than one account. */
module UserStore {
  import opened Wrappers

  datatype User = User(username: string, password: string)

  /** The repository's look-up by user name: the account with that name,
      if any. The repository's derived query would throw if two accounts
      shared a name; the service keeps at most one account, so that never
      happens. */
  function FindByUsername(users: seq<User>, username: string): (r: Option<User>)
    ensures r.Some? ==> r.value in users && r.value.username == username
    ensures r.None? <==> forall u :: u in users ==> u.username != username
  {
    if users == [] then None
    else if users[0].username == username then Some(users[0])
    else FindByUsername(users[1..], username)
  }

  /** The repository's existence query by user name: it holds exactly
      when the look-up by that name finds an account. */
  function ExistsByUsername(users: seq<User>, username: string): (b: bool)
    ensures b <==> FindByUsername(users, username).Some?
    ensures b ==> users != []
  {
    exists u :: u in users && u.username == username
  }

  /** What the service's login answers for a store: the account found by
      the name exists and its password is equal, character for character. */
  function LoginAnswer(users: seq<User>, username: string, password: string): (ok: bool)
    ensures |users| <= 1 ==> (ok <==> User(username, password) in users)
    ensures users == [] ==> !ok
  {
    var found := FindByUsername(users, username);
    found.Some? && found.value.password == password
  }

  /** The outcome of the service's signup: whether it succeeded and the
      store afterwards. */
  datatype SignupResult = SignupResult(ok: bool, users: seq<User>)

  /** The service's signup on a given store. The name-collision guard
      can never fire: it is reached only when the store is empty. */
  function SignupAnswer(users: seq<User>, username: string, password: string): (r: SignupResult)
    ensures r.ok <==> users == []
    ensures r.users == if r.ok then [User(username, password)] else users
  {
    if |users| > 0 then SignupResult(false, users)
    else if ExistsByUsername(users, username) then SignupResult(false, users)
    else SignupResult(true, users + [User(username, password)])
  }

  /** The store reached from a given store by a sequence of
      signups. */
  function SignupRun(users: seq<User>, requests: seq<User>): (r: seq<User>)
    decreases requests
  {
    if requests == [] then users
    else SignupRun(SignupAnswer(users, requests[0].username, requests[0].password).users, requests[1..])
  }

  /** Whatever the signups, the store never holds more than one account,
      and after the first of them it holds exactly the first request. */
  lemma {:induction false} SignupRunKeepsOneAccount(users: seq<User>, requests: seq<User>)
    requires |users| <= 1
    ensures |SignupRun(users, requests)| <= 1
    ensures users == [] && requests != [] ==> SignupRun(users, requests) == [requests[0]]
    ensures users != [] ==> SignupRun(users, requests) == users
    decreases requests
  {
    if requests != [] {
      var next := SignupAnswer(users, requests[0].username, requests[0].password).users;
      SignupRunKeepsOneAccount(next, requests[1..]);
    }
  }

  /** After a successful signup with a password, login with that password
      succeeds and login with any other password fails. */
  lemma SignupThenLogin(users: seq<User>, username: string, password: string, other: string)
    requires SignupAnswer(users, username, password).ok
    ensures LoginAnswer(SignupAnswer(users, username, password).users, username, password)
    ensures other != password ==>
      !LoginAnswer(SignupAnswer(users, username, password).users, username, other)
  {
  }

  class UserService {
    var users: seq<User>

    ghost predicate Valid()
      reads this
    {
      |users| <= 1
    }

    constructor ()
      ensures Valid() && users == []
    {
      users := [];
    }

    method Login(username: string, password: string) returns (ok: bool)
      requires Valid()
      ensures ok <==> User(username, password) in users
      ensures ok == LoginAnswer(users, username, password)
    {
      ok := LoginAnswer(users, username, password);
    }

    method Signup(username: string, password: string) returns (ok: bool)
      requires Valid()
      modifies this
      ensures Valid()
      ensures ok <==> old(users) == []
      ensures SignupResult(ok, users) == SignupAnswer(old(users), username, password)
    {
      if |users| > 0 {
        return false;
      }
      if ExistsByUsername(users, username) {
        return false;
      }
      users := users + [User(username, password)];
      return true;
    }

    method UserExists() returns (b: bool)
      ensures b <==> |users| > 0
    {
      b := |users| > 0;
    }
  }
}
