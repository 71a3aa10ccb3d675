/** The outcome logic of the authentication endpoints
    (controller/AuthController.java): which status and which message each
    request gets, and what it does to the credential store. */
module AuthApi {
  import opened Wrappers
  import opened Http
  import opened UserStore

  /** The request body; the JSON binding leaves an absent field null. */
  datatype Credentials = Credentials(username: Option<string>, password: Option<string>)

  /** The controller's null-field check, negated: both fields are present. */
  function Complete(request: Credentials): (b: bool)
    ensures b <==> !(request.username.None? || request.password.None?)
  {
    request.username.Some? && request.password.Some?
  }

  const FIELDS_REQUIRED := "Username and password required"
  const LOGIN_SUCCESSFUL := "Login successful"
  const INVALID_CREDENTIALS := "Invalid credentials"
  const ONLY_ONE_USER := "User already exists. Only one user allowed."
  const SIGNUP_SUCCESSFUL := "Signup successful"
  const SIGNUP_FAILED := "Signup failed"

  /** A signup's response together with the store it leaves behind. */
  datatype SignupExchange = SignupExchange(response: Response, users: seq<User>)

  /** The signup endpoint on a given store. The "Signup failed" branch is
      unreachable: the conflict gate has already turned away every
      request that the service would refuse. */
  function SignupReply(users: seq<User>, request: Credentials): (r: SignupExchange)
    ensures !Complete(request) ==>
      r == SignupExchange(Response(BAD_REQUEST, Outcome(false, FIELDS_REQUIRED)), users)
    ensures Complete(request) && users != [] ==>
      r == SignupExchange(Response(CONFLICT, Outcome(false, ONLY_ONE_USER)), users)
    ensures Complete(request) && users == [] ==>
      r == SignupExchange(Response(CREATED, Outcome(true, SIGNUP_SUCCESSFUL)),
                          [User(request.username.value, request.password.value)])
  {
    if !Complete(request) then
      SignupExchange(Response(BAD_REQUEST, Outcome(false, FIELDS_REQUIRED)), users)
    else if |users| > 0 then
      SignupExchange(Response(CONFLICT, Outcome(false, ONLY_ONE_USER)), users)
    else
      var signed := SignupAnswer(users, request.username.value, request.password.value);
      if signed.ok then
        SignupExchange(Response(CREATED, Outcome(true, SIGNUP_SUCCESSFUL)), signed.users)
      else
        SignupExchange(Response(BAD_REQUEST, Outcome(false, SIGNUP_FAILED)), signed.users)
  }

  /** The responses to a sequence of signup requests, each served on the
      store the previous one left. */
  function SignupSession(users: seq<User>, requests: seq<Credentials>): (r: seq<Response>)
    decreases requests
  {
    if requests == [] then []
    else
      var first := SignupReply(users, requests[0]);
      [first.response] + SignupSession(first.users, requests[1..])
  }

  /** Once an account exists, every complete signup request gets 409
      and every incomplete one 400. */
  lemma {:induction false} SignupSessionWhenRegistered(users: seq<User>, requests: seq<Credentials>)
    requires users != []
    ensures |SignupSession(users, requests)| == |requests|
    ensures forall i :: 0 <= i < |requests| ==>
      SignupSession(users, requests)[i].status == if Complete(requests[i]) then CONFLICT else BAD_REQUEST
    decreases requests
  {
    if requests != [] {
      SignupSessionWhenRegistered(users, requests[1..]);
    }
  }

  /** No request before position `n` is complete. */
  predicate NoCompleteBefore(requests: seq<Credentials>, n: int)
  {
    forall j :: 0 <= j < n && j < |requests| ==> !Complete(requests[j])
  }

  /** On an empty store every incomplete signup request gets 400, the
      first complete one gets 201 and every later complete one gets 409. */
  lemma {:induction false} FirstSignupWins(requests: seq<Credentials>)
    ensures |SignupSession([], requests)| == |requests|
    ensures forall i :: 0 <= i < |requests| ==>
      SignupSession([], requests)[i].status ==
        if !Complete(requests[i]) then BAD_REQUEST
        else if NoCompleteBefore(requests, i) then CREATED
        else CONFLICT
    decreases requests
  {
    if requests != [] {
      var first := SignupReply([], requests[0]);
      var rest := requests[1..];
      if Complete(requests[0]) {
        SignupSessionWhenRegistered(first.users, rest);
      } else {
        FirstSignupWins(rest);
        forall i | 1 <= i < |requests|
          ensures NoCompleteBefore(requests, i) <==> NoCompleteBefore(rest, i - 1)
        {
          if NoCompleteBefore(rest, i - 1) {
            forall j | 0 <= j < i
              ensures !Complete(requests[j])
            {
              if j > 0 { assert requests[j] == rest[j - 1]; }
            }
          }
        }
      }
    }
  }

  class AuthController {
    const userService: UserService

    constructor (userService: UserService)
      ensures this.userService == userService
    {
      this.userService := userService;
    }

    method Login(request: Credentials) returns (r: Response)
      requires userService.Valid()
      ensures !Complete(request) ==> r == Response(BAD_REQUEST, Outcome(false, FIELDS_REQUIRED))
      ensures Complete(request) ==>
        r == if User(request.username.value, request.password.value) in userService.users
             then Response(OK, Outcome(true, LOGIN_SUCCESSFUL))
             else Response(UNAUTHORIZED, Outcome(false, INVALID_CREDENTIALS))
    {
      if request.username.None? || request.password.None? {
        return Response(BAD_REQUEST, Outcome(false, FIELDS_REQUIRED));
      }
      var success := userService.Login(request.username.value, request.password.value);
      if success {
        r := Response(OK, Outcome(true, LOGIN_SUCCESSFUL));
      } else {
        r := Response(UNAUTHORIZED, Outcome(false, INVALID_CREDENTIALS));
      }
    }

    method Signup(request: Credentials) returns (r: Response)
      requires userService.Valid()
      modifies userService
      ensures userService.Valid()
      ensures SignupExchange(r, userService.users) == SignupReply(old(userService.users), request)
    {
      if request.username.None? || request.password.None? {
        return Response(BAD_REQUEST, Outcome(false, FIELDS_REQUIRED));
      }
      var registered := userService.UserExists();
      if registered {
        return Response(CONFLICT, Outcome(false, ONLY_ONE_USER));
      }
      var success := userService.Signup(request.username.value, request.password.value);
      if success {
        r := Response(CREATED, Outcome(true, SIGNUP_SUCCESSFUL));
      } else {
        r := Response(BAD_REQUEST, Outcome(false, SIGNUP_FAILED));
      }
    }

    method CheckUserExists() returns (r: Response)
      ensures r.status == OK
      ensures r.body == UserCheck(userService.users != [])
    {
      var registered := userService.UserExists();
      r := Response(OK, UserCheck(registered));
    }
  }
}
