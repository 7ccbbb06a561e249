/** The session store: at most one signed-in user, persisted under one storage key,
    and a `user_login` event published on every login and on every restore. */
module Auth {
  import opened Common

  /** The storage key that holds the serialized session user. */
  const SessionKey := "truassets_user"
  /** The name of the cross-store event that carries a freshly signed-in user. */
  const LoginEventName := "user_login"

  datatype Role = UserRole | AdminRole

  datatype User = User(id: string, name: string, email: string, picture: Option<string>, role: Role)

  /** The record the fixed-credential admin login hands to `login`. */
  function AdminUser(email: string): (u: User)
    ensures u.role == AdminRole && u.id == "admin-001" && u.email == email
  {
    User("admin-001", "Admin", email, None, AdminRole)
  }

  /** `isAuthenticated`: some user is signed in, which is exactly when the storage key
      holds one. */
  predicate Authenticated(user: Option<User>)
    ensures Authenticated(user) <==> Mirror(user).Holds?
  {
    user.Some?
  }

  /** `isAdmin`: the signed-in user has the admin role; being admin implies being signed in. */
  predicate Admin(user: Option<User>)
    ensures Admin(user) ==> Authenticated(user)
  {
    match user
    case None => false
    case Some(u) => u.role == AdminRole
  }

  /** What the storage key holds for a given in-memory session. */
  function Mirror(user: Option<User>): Slot<User> {
    match user
    case None => Absent
    case Some(u) => Holds(u)
  }

  class Session {
    /** The signed-in user, or none when anonymous. */
    var user: Option<User>
    /** The contents of the session storage key. */
    var stored: Slot<User>
    /** The `detail` of every `user_login` event dispatched so far, oldest first. */
    var published: seq<User>

    /** The storage key always mirrors the in-memory session. */
    ghost predicate Valid()
      reads this
    {
      stored == Mirror(user)
    }

    predicate IsAuthenticated()
      reads this
    {
      Authenticated(user)
    }

    predicate IsAdmin()
      reads this
      ensures IsAdmin() ==> IsAuthenticated()
    {
      Admin(user)
    }

    /** Mounting the provider: restore a stored user and re-publish the login event;
        clear a key that does not parse. */
    constructor Mount(initial: Slot<User>)
      ensures Valid()
      ensures initial.Holds? ==> user == Some(initial.value) && published == [initial.value]
      ensures initial.Holds? ==> stored == initial
      ensures !initial.Holds? ==> user == None && stored == Absent && published == []
    {
      match initial
      case Holds(u) =>
        user := Some(u);
        stored := initial;
        published := [u];
      case Unreadable =>
        user := None;
        stored := Absent;
        published := [];
      case Absent =>
        user := None;
        stored := Absent;
        published := [];
    }

    /** `login`: remember the user, persist it, and publish exactly one event carrying it. */
    method Login(u: User)
      modifies this
      ensures Valid()
      ensures user == Some(u) && stored == Holds(u)
      ensures published == old(published) + [u]
    {
      user := Some(u);
      stored := Holds(u);
      published := published + [u];
    }

    /** `logout`: forget the user and remove the key; nothing is published. */
    method Logout()
      modifies this
      ensures Valid()
      ensures user == None && stored == Absent
      ensures published == old(published)
    {
      user := None;
      stored := Absent;
    }
  }

  /** A login followed by a logout leaves the session anonymous and the key absent,
      whatever the state before, with the one login event still on record. */
  method LoginThenLogout(s: Session, u: User)
    modifies s
    ensures s.Valid() && !s.IsAuthenticated() && !s.IsAdmin()
    ensures s.stored == Absent
    ensures s.published == old(s.published) + [u]
  {
    s.Login(u);
    s.Logout();
  }
}
