/** The sign-up and login endpoints `POST /api/auth/signup` and `POST /api/auth/login`. Password
    hashing and matching and the minting of tokens are passed in as functions. */
module AuthApi {
  import opened Common
  import opened Text
  import opened Users
  import UserApi

  /** The sign-up body; a missing or null field is `None`. */
  datatype SignupRequest = SignupRequest(
    username: Option<string>, fullName: Option<string>, email: Option<string>, password: Option<string>)

  /** The answer of both endpoints: a token and a profile on success, and always a message. */
  datatype AuthMessage = AuthMessage(token: Option<string>, user: Option<UserDto>, message: string)

  function Failure(message: string): AuthMessage {
    AuthMessage(None, None, message)
  }

  const MissingFields: string := "Email and password are required"
  const EmailInUse: string := "Email already in use"
  const InvalidCredentials: string := "Invalid email or password"

  /** The username given to a user who signs up without one, `email.split("@")[0]`: the text
      before the first '@', the whole email when it has none. An email made only of '@'
      characters splits into no pieces at all, so taking the first one throws (`None`). */
  function DefaultUsername(email: string): (r: Option<string>)
    ensures r.None? <==> email != [] && forall i | 0 <= i < |email| :: email[i] == '@'
    ensures r.Some? ==> r.value <= email && '@' !in r.value
    ensures r.Some? ==> |r.value| == |email| || email[|r.value|] == '@'
  {
    var pieces := JavaSplit(email, '@');
    if pieces == [] then None else Some(pieces[0])
  }

  /** For an address `name@domain` with a non-empty name the default is the name, whatever
      the domain holds, further '@' characters included. */
  lemma DefaultUsernameOfAddress(name: string, domain: string)
    requires name != [] && '@' !in name
    ensures DefaultUsername(name + "@" + domain) == Some(name)
  {
    var email := name + "@" + domain;
    assert email[0] == name[0];
    var r := DefaultUsername(email);
    assert r.Some?;
    assert email[|name|] == '@';
    assert forall k | 0 <= k < |name| :: email[k] == name[k];
    assert r.value == email[..|name|] == name;
  }

  /** The user that sign-up stores, with the id the repository assigns; `None` when the username
      default throws. The user gets the hashed password, the role "STUDENT" and is active. */
  function NewUser(req: SignupRequest, id: string, encode: string -> string): (r: Option<User>)
    requires req.email.Some? && req.password.Some?
    ensures r.None? <==> req.username.None? && DefaultUsername(req.email.value).None?
    ensures r.Some? ==> && r.value.email == req.email.value && r.value.id == id
                        && r.value.username == (if req.username.Some? then req.username.value
                                                else DefaultUsername(req.email.value).value)
                        && r.value.fullName == req.fullName
                        && r.value.passwordHash == encode(req.password.value)
                        && r.value.role == "STUDENT" && r.value.isActive
                        && r.value.profilePicture.None? && r.value.lastLogin.None?
  {
    var username := if req.username.Some? then Some(req.username.value) else DefaultUsername(req.email.value);
    match username
    case None => None
    case Some(name) =>
      Some(User(id, name, req.fullName, req.email.value, None, None, None,
                encode(req.password.value), "STUDENT", true))
  }

  /** The profile in a sign-up or login answer: like the profile endpoint's, except that a
      non-blank `username` argument is shown instead of the stored one. */
  function AuthProfile(u: User, username: Option<string>, now: string): (d: UserDto)
    ensures username.Some? && !IsBlank(username.value) ==> d == UserApi.Profile(u, now).(username := username.value)
    ensures username.None? || IsBlank(username.value) ==> d == UserApi.Profile(u, now)
  {
    var shown := if username.Some? && !IsBlank(username.value) then username.value else u.username;
    UserDto(u.id, shown, u.fullName, u.email, u.profilePicture, u.createdAt.GetOr(now), u.lastLogin)
  }

  /** After sign-up the answer shows exactly the stored user's profile: the requested username is
      the stored one whenever it is given, blank or not, so the override changes nothing. */
  lemma SignupProfileIsStored(req: SignupRequest, id: string, encode: string -> string, now: string)
    requires req.email.Some? && req.password.Some? && NewUser(req, id, encode).Some?
    ensures AuthProfile(NewUser(req, id, encode).value, req.username, now) ==
            UserApi.Profile(NewUser(req, id, encode).value, now)
  {
    var u := NewUser(req, id, encode).value;
    if req.username.Some? && !IsBlank(req.username.value) {
      assert u.username == req.username.value;
    }
  }

  /** The controller with its user repository. `now` is the current time, `newId` the id the
      repository gives a newly saved user, `encode` hashes a password, `matches` checks a
      password against a hash, and `mint(email, role, uid)` makes a token. */
  class AuthController {
    const users: UserRepository

    constructor (users: UserRepository)
      ensures this.users == users
    {
      this.users := users;
    }

    /** `signup`: 400 when the email or the password is missing, whatever is stored; then 409
        when the email is taken; then, when no username is given and the email is made of '@'
        characters only, an error (500); otherwise the new user is stored and the answer
        carries its token and profile. Only the last case changes the repository. */
    method Signup(req: SignupRequest, newId: string, now: string,
                  encode: string -> string, mint: (string, string, string) -> string)
      returns (r: Response<AuthMessage>)
      requires users.Valid()
      modifies users
      ensures users.Valid()
      ensures req.email.None? || req.password.None? ==>
                r == Response(400, Some(Failure(MissingFields))) && users.byEmail == old(users.byEmail)
      ensures req.email.Some? && req.password.Some? && req.email.value in old(users.byEmail) ==>
                r == Response(409, Some(Failure(EmailInUse))) && users.byEmail == old(users.byEmail)
      ensures req.email.Some? && req.password.Some? && req.email.value !in old(users.byEmail) ==>
                match NewUser(req, newId, encode)
                case None => r == Response(500, None) && users.byEmail == old(users.byEmail)
                case Some(u) =>
                  && users.byEmail == old(users.byEmail)[u.email := u]
                  && r == Response(200, Some(AuthMessage(Some(mint(u.email, u.role, u.id)),
                                                         Some(UserApi.Profile(u, now)), "Signup successful")))
    {
      if req.email.None? || req.password.None? {
        return Response(400, Some(Failure(MissingFields)));
      }
      var email := req.email.value;
      if users.FindByEmail(email).Some? {
        return Response(409, Some(Failure(EmailInUse)));
      }
      var username: string;
      if req.username.Some? {
        username := req.username.value;
      } else {
        var pieces := JavaSplit(email, '@');
        if pieces == [] {
          return Response(500, None);
        }
        username := pieces[0];
      }
      var u := User(newId, username, req.fullName, email, None, None, None,
                    encode(req.password.value), "STUDENT", true);
      users.Save(u);
      var token := mint(u.email, u.role, u.id);
      SignupProfileIsStored(req, newId, encode, now);
      r := Response(200, Some(AuthMessage(Some(token), Some(AuthProfile(u, req.username, now)), "Signup successful")));
    }

    /** `login`: the same 401 answer for an unknown email and for a wrong password, changing
        nothing; otherwise the user's last login becomes `now`, the user is saved, and the
        answer carries its token and profile. A request without a password reaches the encoder
        only for a known email, and Spring's password encoders throw on a null raw password, so
        that request is answered 500 with nothing changed. */
    method Login(email: Option<string>, password: Option<string>, now: string,
                 matches: (string, string) -> bool, mint: (string, string, string) -> string)
      returns (r: Response<AuthMessage>)
      requires users.Valid()
      modifies users
      ensures users.Valid()
      ensures email.None? || email.value !in old(users.byEmail) ==>
                r == Response(401, Some(Failure(InvalidCredentials))) && users.byEmail == old(users.byEmail)
      ensures email.Some? && email.value in old(users.byEmail) && password.None? ==>
                r == Response(500, None) && users.byEmail == old(users.byEmail)
      ensures email.Some? && email.value in old(users.byEmail) && password.Some? &&
              !matches(password.value, old(users.byEmail)[email.value].passwordHash) ==>
                r == Response(401, Some(Failure(InvalidCredentials))) && users.byEmail == old(users.byEmail)
      ensures email.Some? && email.value in old(users.byEmail) && password.Some? &&
              matches(password.value, old(users.byEmail)[email.value].passwordHash) ==>
                var u := old(users.byEmail)[email.value].(lastLogin := Some(now));
                && users.byEmail == old(users.byEmail)[email.value := u]
                && r == Response(200, Some(AuthMessage(Some(mint(u.email, u.role, u.id)),
                                                       Some(UserApi.Profile(u, now)), "Login successful")))
    {
      var found := if email.Some? then users.FindByEmail(email.value) else None;
      if found.None? {
        return Response(401, Some(Failure(InvalidCredentials)));
      }
      if password.None? {
        return Response(500, None);
      }
      if !matches(password.value, found.value.passwordHash) {
        return Response(401, Some(Failure(InvalidCredentials)));
      }
      var u := found.value.(lastLogin := Some(now));
      users.Save(u);
      var token := mint(u.email, u.role, u.id);
      r := Response(200, Some(AuthMessage(Some(token), Some(AuthProfile(u, None, now)), "Login successful")));
    }
  }
}
