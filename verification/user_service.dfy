/** The user service: registration, login, profile lookup and profile update,
    each a check followed by a write on the user collection. Password hashing
    and token signing are opaque values. */
module UserService {
  import opened Wrappers
  import opened Domain

  /** A user as returned without its password field (`select('-password')`,
      or the `user` part of a login answer). */
  datatype PublicUser = PublicUser(id: UserId, name: string, email: string)

  function Public(u: User): (p: PublicUser)
    ensures p.id == u.id && p.name == u.name && p.email == u.email
  {
    PublicUser(u.id, u.name, u.email)
  }

  /** A signed token that carries the user id (signature and expiry are
      opaque). */
  datatype Token = Token(userId: UserId)

  datatype LoginResult = LoginResult(token: Token, user: PublicUser)

  /** The fields of a profile update; `None` fields are left alone. */
  datatype ProfileUpdate = ProfileUpdate(name: Option<string>, email: Option<string>)

  const UserAlreadyExists: string := "User already exists"
  const InvalidCredentials: string := "Invalid Credentials"
  const UserNotFound: string := "User not found"
  const EmailAlreadyExists: string := "Email already exists"
  /** The message of a document the user schema rejects (the library's text is
      abstracted). */
  const UserValidationFailed: string := "User validation failed"

  /** `findByEmail` finds someone. */
  ghost predicate EmailTaken(users: map<UserId, User>, email: string)
  {
    exists id | id in users :: users[id].email == email
  }

  /** No two stored users share an email. */
  ghost predicate EmailsUnique(users: map<UserId, User>)
  {
    forall a, b | a in users && b in users && a != b :: users[a].email != users[b].email
  }

  /** Storing a user whose email nobody holds keeps emails unique. */
  lemma {:induction false} InsertKeepsEmailsUnique(users: map<UserId, User>, u: User)
    requires EmailsUnique(users) && !EmailTaken(users, u.email) && u.id !in users
    ensures EmailsUnique(users[u.id := u])
  {
    var after := users[u.id := u];
    forall a, b | a in after && b in after && a != b
      ensures after[a].email != after[b].email
    {
      if a == u.id {
        assert users[b].email != u.email;
      } else if b == u.id {
        assert users[a].email != u.email;
      }
    }
  }

  /** Replacing a user by one whose email is its old one, or one nobody
      holds, keeps emails unique. */
  lemma {:induction false} ReplaceKeepsEmailsUnique(users: map<UserId, User>, u: User)
    requires EmailsUnique(users) && u.id in users
    requires u.email == users[u.id].email || !EmailTaken(users, u.email)
    ensures EmailsUnique(users[u.id := u])
  {
    var after := users[u.id := u];
    forall a, b | a in after && b in after && a != b
      ensures after[a].email != after[b].email
    {
      if a == u.id {
        assert users[b].email != u.email;
      } else if b == u.id {
        assert users[a].email != u.email;
      }
    }
  }

  /** The user after a profile update. */
  function ApplyProfile(u: User, upd: ProfileUpdate): (r: User)
    ensures r.id == u.id && r.password == u.password
    ensures r.name == (if upd.name.Some? then upd.name.value else u.name)
    ensures r.email == (if upd.email.Some? then upd.email.value else u.email)
  {
    u.(name := if upd.name.Some? then upd.name.value else u.name,
       email := if upd.email.Some? then upd.email.value else u.email)
  }

  /** The user collection. */
  class UserDirectory {
    var users: map<UserId, User>

    /** Each user is stored under its id, has its required fields, and emails
        are unique. */
    ghost predicate Valid()
      reads this
    {
      && (forall id | id in users :: users[id].id == id && UserComplete(users[id]))
      && EmailsUnique(users)
    }

    constructor ()
      ensures Valid() && users == map[]
    {
      users := map[];
    }

    /** `findByEmail`. */
    method FindByEmail(email: string) returns (r: Option<User>)
      requires Valid()
      ensures r.Some? <==> EmailTaken(users, email)
      ensures r.Some? ==> r.value.id in users && users[r.value.id] == r.value && r.value.email == email
    {
      if id :| id in users && users[id].email == email {
        r := Some(users[id]);
      } else {
        r := None;
      }
    }

    /** `registerUser`: refuses a taken email, otherwise stores the user with
        the hash of the password under the fresh id `newId`. */
    method RegisterUser(name: string, email: string, password: string, newId: UserId)
      returns (r: Result<User>)
      requires Valid() && newId !in users
      modifies this
      ensures Valid()
      ensures EmailTaken(old(users), email) ==> r == Err(UserAlreadyExists)
      ensures !EmailTaken(old(users), email) && (name == "" || email == "") ==>
        r == Err(UserValidationFailed)
      ensures r.Ok? <==> !EmailTaken(old(users), email) && name != "" && email != ""
      ensures r.Ok? ==>
        r.value == User(newId, name, email, Hashed(password)) &&
        users == old(users)[newId := r.value]
      ensures r.Err? ==> users == old(users)
    {
      var existing := FindByEmail(email);
      if existing.Some? {
        return Err(UserAlreadyExists);
      }
      if name == "" || email == "" {
        return Err(UserValidationFailed);
      }
      var u := User(newId, name, email, Hashed(password));
      InsertKeepsEmailsUnique(users, u);
      users := users[newId := u];
      r := Ok(u);
    }

    /** `loginUser`: an unknown email and a wrong password fail alike; a
        success carries a token for the user and the user without password. */
    method LoginUser(email: string, password: string) returns (r: Result<LoginResult>)
      requires Valid()
      ensures r.Err? ==> r.message == InvalidCredentials
      ensures r.Ok? <==>
        exists id | id in users :: users[id].email == email && users[id].password == Hashed(password)
      ensures r.Ok? ==>
        r.value.user.id in users &&
        r.value.user == Public(users[r.value.user.id]) &&
        r.value.user.email == email &&
        r.value.token == Token(r.value.user.id)
    {
      var found := FindByEmail(email);
      if found.None? {
        return Err(InvalidCredentials);
      }
      var u := found.value;
      if u.password != Hashed(password) {
        return Err(InvalidCredentials);
      }
      r := Ok(LoginResult(Token(u.id), Public(u)));
    }

    /** `getUserProfile`. */
    method GetUserProfile(userId: UserId) returns (r: Result<PublicUser>)
      requires Valid()
      ensures r.Err? <==> userId !in users
      ensures r.Err? ==> r.message == UserNotFound
      ensures r.Ok? ==> r.value == Public(users[userId])
    {
      if userId !in users {
        return Err(UserNotFound);
      }
      r := Ok(Public(users[userId]));
    }

    /** `updateUserProfile`: an unknown user, a new email that someone holds,
        or a field the schema rejects fail and change nothing; keeping one's
        own email skips the uniqueness check. */
    method UpdateUserProfile(userId: UserId, upd: ProfileUpdate) returns (r: Result<PublicUser>)
      requires Valid()
      modifies this
      ensures Valid()
      ensures userId !in old(users) ==> r == Err(UserNotFound)
      ensures (userId in old(users) && EmailChange(old(users)[userId], upd) &&
               EmailTaken(old(users), upd.email.value)) ==> r == Err(EmailAlreadyExists)
      ensures r.Ok? ==>
        userId in old(users) &&
        users == old(users)[userId := ApplyProfile(old(users)[userId], upd)] &&
        r.value == Public(users[userId])
      ensures r.Ok? <==>
        userId in old(users) &&
        !(EmailChange(old(users)[userId], upd) && EmailTaken(old(users), upd.email.value)) &&
        UserComplete(ApplyProfile(old(users)[userId], upd))
      ensures r.Err? ==> users == old(users)
    {
      if userId !in users {
        return Err(UserNotFound);
      }
      var u := users[userId];
      if upd.email.Some? && upd.email.value != "" && upd.email.value != u.email {
        var existing := FindByEmail(upd.email.value);
        if existing.Some? {
          return Err(EmailAlreadyExists);
        }
      }
      var u' := ApplyProfile(u, upd);
      if !UserComplete(u') {
        return Err(UserValidationFailed);
      }
      ReplaceKeepsEmailsUnique(users, u');
      users := users[userId := u'];
      r := Ok(Public(u'));
    }
  }

  /** The update asks for a different, non-empty email: the case in which
      uniqueness is checked. */
  predicate EmailChange(u: User, upd: ProfileUpdate)
  {
    upd.email.Some? && upd.email.value != "" && upd.email.value != u.email
  }
}
