/** The user accounts that the sign-up, login, profile and discussion endpoints share: the stored
    user, the profile sent to clients, and the repository that finds users by email. */
module Users {
  import opened Common

  /** A stored user. The repository assigns the id when the user is first saved. */
  datatype User = User(
    id: string, username: string, fullName: Option<string>, email: string,
    profilePicture: Option<string>, createdAt: Option<string>, lastLogin: Option<string>,
    passwordHash: string, role: string, isActive: bool)

  /** The profile sent to clients. */
  datatype UserDto = UserDto(
    id: string, username: string, fullName: Option<string>, email: string,
    profilePicture: Option<string>, createdAt: string, lastLogin: Option<string>)

  /** Every stored user sits under its own email, so `findByEmail` finds at most one user. */
  predicate KeyedByEmail(users: map<string, User>) {
    forall e | e in users :: users[e].email == e
  }

  /** The user repository, seen through the queries the controllers make. */
  class UserRepository {
    var byEmail: map<string, User>

    predicate Valid()
      reads this
    {
      KeyedByEmail(byEmail)
    }

    constructor (users: map<string, User>)
      requires KeyedByEmail(users)
      ensures byEmail == users && Valid()
    {
      byEmail := users;
    }

    /** `findByEmail(email)`: the user with that email, if any. */
    function FindByEmail(email: string): (r: Option<User>)
      reads this
      requires Valid()
      ensures r.None? <==> email !in byEmail
      ensures r.Some? ==> r.value.email == email && r.value == byEmail[email]
    {
      if email in byEmail then Some(byEmail[email]) else None
    }

    /** `save(user)`: stores the user under its email, replacing the one stored there before. */
    method Save(u: User)
      requires Valid()
      modifies this
      ensures byEmail == old(byEmail)[u.email := u]
      ensures Valid()
    {
      byEmail := byEmail[u.email := u];
    }
  }
}
