/** The profile endpoints `GET /api/users/me` and `PUT /api/users/me`: both answer for the
    authenticated user, whose name is an email; the update changes only the fields it is given. */
module UserApi {
  import opened Common
  import opened Users

  /** The profile both endpoints build from a stored user. A user without a creation time is
      shown as created `now`; a user who never logged in keeps no last login. */
  function Profile(u: User, now: string): (d: UserDto)
    ensures d.id == u.id && d.username == u.username && d.fullName == u.fullName
    ensures d.email == u.email && d.profilePicture == u.profilePicture && d.lastLogin == u.lastLogin
    ensures u.createdAt.Some? ==> d.createdAt == u.createdAt.value
    ensures u.createdAt.None? ==> d.createdAt == now
  {
    UserDto(u.id, u.username, u.fullName, u.email, u.profilePicture, u.createdAt.GetOr(now), u.lastLogin)
  }

  /** The body of the update request; a missing or null field is `None`. The email the body may
      carry is read but never applied. */
  datatype ProfileUpdate = ProfileUpdate(
    username: Option<string>, fullName: Option<string>, email: Option<string>,
    profilePicture: Option<string>)

  /** The user after an update: full name, username and picture take the values the update
      carries, and everything else, the email included, stays as it was. */
  function Patched(u: User, p: ProfileUpdate): (r: User)
    ensures r.fullName == (if p.fullName.Some? then p.fullName else u.fullName)
    ensures r.username == (if p.username.Some? then p.username.value else u.username)
    ensures r.profilePicture == (if p.profilePicture.Some? then p.profilePicture else u.profilePicture)
    ensures r.email == u.email && r.id == u.id && r.passwordHash == u.passwordHash
    ensures r.createdAt == u.createdAt && r.lastLogin == u.lastLogin
    ensures r.role == u.role && r.isActive == u.isActive
  {
    var u1 := if p.fullName.Some? then u.(fullName := p.fullName) else u;
    var u2 := if p.username.Some? then u1.(username := p.username.value) else u1;
    if p.profilePicture.Some? then u2.(profilePicture := p.profilePicture) else u2
  }

  /** Sending the same update twice is sending it once, and an update without fields changes
      nothing. */
  lemma PatchedIdempotent(u: User, p: ProfileUpdate)
    ensures Patched(Patched(u, p), p) == Patched(u, p)
    ensures Patched(u, ProfileUpdate(None, None, p.email, None)) == u
  {
  }

  /** Two updates one after the other are the one update that carries, field by field, the
      later value where the later update has one and the earlier value otherwise. */
  lemma PatchedCompose(u: User, p: ProfileUpdate, q: ProfileUpdate)
    ensures Patched(Patched(u, p), q) ==
      Patched(u, ProfileUpdate(
        if q.username.Some? then q.username else p.username,
        if q.fullName.Some? then q.fullName else p.fullName,
        q.email,
        if q.profilePicture.Some? then q.profilePicture else p.profilePicture))
  {
  }

  /** The controller, with the user repository it is given. `auth` is the name of the
      authenticated principal, `None` when there is no authentication or it has no name; `now`
      is the current time. */
  class UserController {
    const users: UserRepository

    constructor (users: UserRepository)
      ensures this.users == users
    {
      this.users := users;
    }

    /** `me`: 401 without an authenticated name, 404 when no user has that email, otherwise the
        user's profile. */
    method Me(auth: Option<string>, now: string) returns (r: Response<UserDto>)
      requires users.Valid()
      ensures auth.None? ==> r == Response(401, None)
      ensures auth.Some? && auth.value !in users.byEmail ==> r == Response(404, None)
      ensures auth.Some? && auth.value in users.byEmail ==>
                r == Response(200, Some(Profile(users.byEmail[auth.value], now)))
    {
      if auth.None? {
        return Response(401, None);
      }
      var found := users.FindByEmail(auth.value);
      if found.None? {
        return Response(404, None);
      }
      r := Response(200, Some(Profile(found.value, now)));
    }

    /** `update`: the same 401 and 404 answers, which change nothing; otherwise the user is
        patched, saved under the same email, and its new profile returned. */
    method Update(auth: Option<string>, updates: ProfileUpdate, now: string) returns (r: Response<UserDto>)
      requires users.Valid()
      modifies users
      ensures users.Valid()
      ensures auth.None? ==> r == Response(401, None) && users.byEmail == old(users.byEmail)
      ensures auth.Some? && auth.value !in old(users.byEmail) ==>
                r == Response(404, None) && users.byEmail == old(users.byEmail)
      ensures auth.Some? && auth.value in old(users.byEmail) ==>
                var u := Patched(old(users.byEmail)[auth.value], updates);
                && users.byEmail == old(users.byEmail)[auth.value := u]
                && r == Response(200, Some(Profile(u, now)))
    {
      if auth.None? {
        return Response(401, None);
      }
      var found := users.FindByEmail(auth.value);
      if found.None? {
        return Response(404, None);
      }
      var user := found.value;
      if updates.fullName.Some? {
        user := user.(fullName := updates.fullName);
      }
      if updates.username.Some? {
        user := user.(username := updates.username.value);
      }
      if updates.profilePicture.Some? {
        user := user.(profilePicture := updates.profilePicture);
      }
      users.Save(user);
      r := Response(200, Some(Profile(user, now)));
    }
  }
}
