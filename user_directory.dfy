/** The user directory store: platform users (not the session user), their CRUD,
    the moderation actions, per-status counts, persistence under one storage key,
    and the upsert by email that every `user_login` event triggers. */
module UserDirectory {
  import opened Common
  import Auth
  import Text

  /** The storage key that holds the serialized directory. */
  const StorageKey := "truassets_users"

  datatype UserStatus = Active | Blocked | OnHold

  /** The string each status has in the serialized record. */
  function StatusName(s: UserStatus): string {
    match s
    case Active => "active"
    case Blocked => "blocked"
    case OnHold => "on-hold"
  }

  datatype PlatformUser = PlatformUser(
    id: string,
    name: string,
    email: string,
    role: Auth.Role,
    status: UserStatus,
    lastActive: string,
    joinedDate: string,
    totalInvestments: real)

  /** What a caller hands to `addUser`: a user without `id` and `joinedDate`. */
  datatype NewUser = NewUser(
    name: string,
    email: string,
    role: Auth.Role,
    status: UserStatus,
    lastActive: string,
    totalInvestments: real)

  /** A `Partial<PlatformUser>`. */
  datatype UserPatch = UserPatch(
    id: Option<string>,
    name: Option<string>,
    email: Option<string>,
    role: Option<Auth.Role>,
    status: Option<UserStatus>,
    lastActive: Option<string>,
    joinedDate: Option<string>,
    totalInvestments: Option<real>)

  /** The patch the moderation actions send: a new status and nothing else. */
  function StatusPatch(s: UserStatus): UserPatch {
    UserPatch(None, None, None, None, Some(s), None, None, None)
  }

  // ---------------------------------------------------------------- add, update, delete

  /** The id a user added at clock value `nowMs` receives. */
  function UserId(nowMs: nat): string {
    "user-" + Text.Decimal(nowMs)
  }

  /** `addUser`: the new entry, with a clock-made id and join date, goes in front. */
  function Added(us: seq<PlatformUser>, n: NewUser, nowMs: nat, nowIso: string): (r: seq<PlatformUser>)
    ensures |r| == |us| + 1 && r[1..] == us
    ensures r[0].id == UserId(nowMs) && r[0].joinedDate == nowIso
    ensures r[0].name == n.name && r[0].email == n.email && r[0].role == n.role
    ensures r[0].status == n.status && r[0].lastActive == n.lastActive
    ensures r[0].totalInvestments == n.totalInvestments
  {
    [PlatformUser(UserId(nowMs), n.name, n.email, n.role, n.status, n.lastActive, nowIso,
                  n.totalInvestments)] + us
  }

  /** The shallow merge `{ ...u, ...patch }`: the patch's fields win, so an empty patch
      changes nothing and a status patch changes the status alone. */
  function Merge(u: PlatformUser, patch: UserPatch): (r: PlatformUser)
    ensures patch == UserPatch(None, None, None, None, None, None, None, None) ==> r == u
    ensures forall s :: patch == StatusPatch(s) ==> r == u.(status := s)
  {
    PlatformUser(
      patch.id.GetOr(u.id),
      patch.name.GetOr(u.name),
      patch.email.GetOr(u.email),
      patch.role.GetOr(u.role),
      patch.status.GetOr(u.status),
      patch.lastActive.GetOr(u.lastActive),
      patch.joinedDate.GetOr(u.joinedDate),
      patch.totalInvestments.GetOr(u.totalInvestments))
  }

  /** `updateUser`: every entry whose id matches is merged with the patch, in place. */
  function Updated(us: seq<PlatformUser>, id: string, patch: UserPatch): (r: seq<PlatformUser>)
    ensures |r| == |us|
    ensures forall i :: 0 <= i < |us| && us[i].id != id ==> r[i] == us[i]
    ensures forall i :: 0 <= i < |us| && us[i].id == id ==> r[i] == Merge(us[i], patch)
  {
    if us == [] then []
    else [if us[0].id == id then Merge(us[0], patch) else us[0]] + Updated(us[1..], id, patch)
  }

  /** `blockUser`, `unblockUser` and `putOnHold` change the status of the matching
      entries and nothing else, anywhere in the list. */
  lemma StatusPatchOnlyStatus(us: seq<PlatformUser>, id: string, s: UserStatus)
    ensures |Updated(us, id, StatusPatch(s))| == |us|
    ensures forall i :: 0 <= i < |us| ==>
              Updated(us, id, StatusPatch(s))[i] == if us[i].id == id then us[i].(status := s) else us[i]
  {
  }

  /** The test "carries `id`", as a value. */
  function HasId(id: string): PlatformUser -> bool {
    (u: PlatformUser) => u.id == id
  }

  /** `deleteUser`: every entry with the id goes; the others stay, in order. */
  function Deleted(us: seq<PlatformUser>, id: string): (r: seq<PlatformUser>)
    ensures forall u :: u in r <==> u in us && u.id != id
    ensures IsSubsequence(r, us)
    ensures |r| == |us| - Count(HasId(id), us)
  {
    if us == [] then []
    else if us[0].id == id then Deleted(us[1..], id)
    else [us[0]] + Deleted(us[1..], id)
  }

  // ---------------------------------------------------------------- statistics

  /** The test "has status `s`", as a value. */
  function HasStatus(s: UserStatus): PlatformUser -> bool {
    (u: PlatformUser) => u.status == s
  }

  /** Every entry has exactly one of the three statuses. */
  lemma {:induction false} StatusCountsSum(us: seq<PlatformUser>)
    ensures Count(HasStatus(Active), us) + Count(HasStatus(Blocked), us) + Count(HasStatus(OnHold), us) == |us|
  {
    if us != [] {
      StatusCountsSum(us[1..]);
    }
  }

  datatype UserStats = UserStats(total: nat, active: nat, blocked: nat, onHold: nat)

  /** `getUserStats`: the length and the per-status counts, which add up to the length. */
  function GetUserStats(us: seq<PlatformUser>): (st: UserStats)
    ensures st.total == |us|
    ensures st.active + st.blocked + st.onHold == st.total
    ensures st.active == Count(HasStatus(Active), us) && st.blocked == Count(HasStatus(Blocked), us)
    ensures st.onHold == Count(HasStatus(OnHold), us)
  {
    StatusCountsSum(us);
    UserStats(|us|, Count(HasStatus(Active), us), Count(HasStatus(Blocked), us), Count(HasStatus(OnHold), us))
  }

  // ---------------------------------------------------------------- login sync

  /** `findIndex` on email: the first position holding exactly this email, if any. */
  function EmailIndex(us: seq<PlatformUser>, email: string): (r: Option<nat>)
    ensures r.Some? ==> r.value < |us| && us[r.value].email == email
    ensures r.Some? ==> forall j :: 0 <= j < r.value ==> us[j].email != email
    ensures r.None? ==> forall j :: 0 <= j < |us| ==> us[j].email != email
  {
    if us == [] then None
    else if us[0].email == email then Some(0)
    else match EmailIndex(us[1..], email)
      case None => None
      case Some(i) => Some(i + 1)
  }

  /** The loop `findIndex` runs: the first index with the email, or -1. */
  method FindByEmail(us: seq<PlatformUser>, email: string) returns (idx: int)
    ensures -1 <= idx < |us|
    ensures idx == -1 <==> forall j :: 0 <= j < |us| ==> us[j].email != email
    ensures idx >= 0 ==> us[idx].email == email && forall j :: 0 <= j < idx ==> us[j].email != email
  {
    idx := 0;
    while idx < |us|
      invariant 0 <= idx <= |us|
      invariant forall j :: 0 <= j < idx ==> us[j].email != email
    {
      if us[idx].email == email {
        return;
      }
      idx := idx + 1;
    }
    idx := -1;
  }

  /** An existing entry refreshed by a login: new name and last-active time only. */
  function Refreshed(u: PlatformUser, auth: Auth.User, nowIso: string): PlatformUser {
    u.(lastActive := nowIso, name := auth.name)
  }

  /** The entry a first login creates. */
  function Fresh(auth: Auth.User, nowIso: string): PlatformUser {
    PlatformUser(auth.id, auth.name, auth.email, auth.role, Active, nowIso, nowIso, 0.0)
  }

  /** `syncAuthUser`: admins are skipped; an entry with the same email is refreshed;
      otherwise a fresh active entry is put in front. */
  function Synced(us: seq<PlatformUser>, auth: Auth.User, nowIso: string): (r: seq<PlatformUser>)
    ensures auth.role == Auth.AdminRole ==> r == us
    ensures |us| <= |r| <= |us| + 1
    ensures auth.role != Auth.AdminRole ==> EmailIndex(r, auth.email).Some?
  {
    if auth.role == Auth.AdminRole then us
    else match EmailIndex(us, auth.email)
      case Some(i) =>
        var r := us[i := Refreshed(us[i], auth, nowIso)];
        assert r[i].email == auth.email;
        r
      case None =>
        var r := [Fresh(auth, nowIso)] + us;
        assert r[0].email == auth.email;
        r
  }

  /** A login whose email is already listed touches only the first such entry, and of
      it only the name and the last-active time. */
  lemma SyncedExisting(us: seq<PlatformUser>, auth: Auth.User, nowIso: string, i: nat)
    requires auth.role != Auth.AdminRole
    requires i < |us| && us[i].email == auth.email
    requires forall j :: 0 <= j < i ==> us[j].email != auth.email
    ensures |Synced(us, auth, nowIso)| == |us|
    ensures forall k :: 0 <= k < |us| && k != i ==> Synced(us, auth, nowIso)[k] == us[k]
    ensures Synced(us, auth, nowIso)[i].name == auth.name
    ensures Synced(us, auth, nowIso)[i].lastActive == nowIso
    ensures Synced(us, auth, nowIso)[i].id == us[i].id
    ensures Synced(us, auth, nowIso)[i].email == us[i].email
    ensures Synced(us, auth, nowIso)[i].role == us[i].role
    ensures Synced(us, auth, nowIso)[i].status == us[i].status
    ensures Synced(us, auth, nowIso)[i].joinedDate == us[i].joinedDate
    ensures Synced(us, auth, nowIso)[i].totalInvestments == us[i].totalInvestments
  {
    var e := EmailIndex(us, auth.email);
    assert e.Some?;
    assert e.value == i;
  }

  /** A first login puts a fresh active entry, carrying the session's identity and
      zero investments, in front of the unchanged list. */
  lemma SyncedNew(us: seq<PlatformUser>, auth: Auth.User, nowIso: string)
    requires auth.role != Auth.AdminRole
    requires forall j :: 0 <= j < |us| ==> us[j].email != auth.email
    ensures Synced(us, auth, nowIso)[1..] == us
    ensures Synced(us, auth, nowIso)[0] ==
            PlatformUser(auth.id, auth.name, auth.email, auth.role, Active, nowIso, nowIso, 0.0)
  {
    assert EmailIndex(us, auth.email).None?;
  }

  /** Replaying the same login at the same instant changes nothing more. */
  lemma SyncedIdempotent(us: seq<PlatformUser>, auth: Auth.User, nowIso: string)
    ensures Synced(Synced(us, auth, nowIso), auth, nowIso) == Synced(us, auth, nowIso)
  {
    var r := Synced(us, auth, nowIso);
    if auth.role != Auth.AdminRole {
      match EmailIndex(us, auth.email)
      case Some(i) =>
        assert forall j :: 0 <= j < i ==> r[j].email != auth.email;
        assert r[i].email == auth.email;
        assert EmailIndex(r, auth.email) == Some(i);
        assert r[i] == Refreshed(r[i], auth, nowIso);
      case None =>
        assert EmailIndex(r, auth.email) == Some(0);
    }
  }

  /** The test "holds `email`", as a value. */
  function HasEmail(email: string): PlatformUser -> bool {
    (u: PlatformUser) => u.email == email
  }

  lemma {:induction false} EmailCountZero(us: seq<PlatformUser>, email: string)
    ensures Count(HasEmail(email), us) == 0 <==> forall j :: 0 <= j < |us| ==> us[j].email != email
  {
    if us != [] {
      EmailCountZero(us[1..], email);
      assert forall j :: 1 <= j < |us| ==> us[j] == us[1..][j - 1];
    }
  }

  lemma {:induction false} EmailCountReplace(us: seq<PlatformUser>, i: nat, u: PlatformUser, email: string)
    requires i < |us| && u.email == us[i].email
    ensures Count(HasEmail(email), us[i := u]) == Count(HasEmail(email), us)
  {
    if i > 0 {
      assert us[i := u][1..] == us[1..][i - 1 := u];
      EmailCountReplace(us[1..], i - 1, u, email);
    } else {
      assert us[i := u][1..] == us[1..];
    }
  }

  /** A non-admin login leaves exactly one entry for its email when there was none,
      and the same number as before otherwise. */
  lemma SyncedEmailCount(us: seq<PlatformUser>, auth: Auth.User, nowIso: string)
    requires auth.role != Auth.AdminRole
    ensures Count(HasEmail(auth.email), Synced(us, auth, nowIso)) ==
            if Count(HasEmail(auth.email), us) == 0 then 1 else Count(HasEmail(auth.email), us)
  {
    EmailCountZero(us, auth.email);
    match EmailIndex(us, auth.email)
    case Some(i) =>
      EmailCountReplace(us, i, Refreshed(us[i], auth, nowIso), auth.email);
    case None =>
      var r := [Fresh(auth, nowIso)] + us;
      assert r[1..] == us;
  }

  /** The fixed admin record never becomes a directory entry. */
  lemma AdminLoginExcluded(us: seq<PlatformUser>, email: string, nowIso: string)
    ensures Synced(us, Auth.AdminUser(email), nowIso) == us
  {
  }

  // ---------------------------------------------------------------- persistence

  class Directory {
    /** The in-memory directory, newest first. */
    var users: seq<PlatformUser>
    /** The contents of the directory's storage key. */
    var stored: Slot<seq<PlatformUser>>

    /** A non-empty directory is always saved. */
    ghost predicate Valid()
      reads this
    {
      users != [] ==> stored == Holds(users)
    }

    /** Mounting the provider: take the stored list if it parses; otherwise start empty,
        and, unlike the catalog, leave an unparseable key where it is. */
    constructor Load(initial: Slot<seq<PlatformUser>>)
      ensures Valid()
      ensures users == Restored(initial)
      ensures stored == initial
    {
      match initial {
        case Holds(us) =>
          users := us;
          stored := Persisted(us, initial);
        case Unreadable =>
          users := [];
          stored := initial;
        case Absent =>
          users := [];
          stored := initial;
      }
    }

    method AddUser(n: NewUser, nowMs: nat, nowIso: string)
      requires Valid()
      modifies this
      ensures Valid()
      ensures users == Added(old(users), n, nowMs, nowIso)
      ensures stored == Holds(users)
    {
      users := Added(users, n, nowMs, nowIso);
      stored := Persisted(users, stored);
    }

    method UpdateUser(id: string, patch: UserPatch)
      requires Valid()
      modifies this
      ensures Valid()
      ensures users == Updated(old(users), id, patch)
      ensures stored == Persisted(users, old(stored))
    {
      users := Updated(users, id, patch);
      stored := Persisted(users, stored);
    }

    method DeleteUser(id: string)
      requires Valid()
      modifies this
      ensures Valid()
      ensures users == Deleted(old(users), id)
      ensures stored == Persisted(users, old(stored))
    {
      users := Deleted(users, id);
      stored := Persisted(users, stored);
    }

    method BlockUser(id: string)
      requires Valid()
      modifies this
      ensures Valid()
      ensures users == Updated(old(users), id, StatusPatch(Blocked))
      ensures stored == Persisted(users, old(stored))
    {
      UpdateUser(id, StatusPatch(Blocked));
    }

    method UnblockUser(id: string)
      requires Valid()
      modifies this
      ensures Valid()
      ensures users == Updated(old(users), id, StatusPatch(Active))
      ensures stored == Persisted(users, old(stored))
    {
      UpdateUser(id, StatusPatch(Active));
    }

    method PutOnHold(id: string)
      requires Valid()
      modifies this
      ensures Valid()
      ensures users == Updated(old(users), id, StatusPatch(OnHold))
      ensures stored == Persisted(users, old(stored))
    {
      UpdateUser(id, StatusPatch(OnHold));
    }

    /** `syncAuthUser`, step by step: look the email up, then either
        overwrite that slot of a copy of the list or prepend a fresh entry. */
    method SyncAuthUser(auth: Auth.User, nowIso: string)
      requires Valid()
      modifies this
      ensures Valid()
      ensures users == Synced(old(users), auth, nowIso)
      ensures stored == Persisted(users, old(stored))
    {
      if auth.role == Auth.AdminRole {
        return;
      }
      var idx := FindByEmail(users, auth.email);
      if idx != -1 {
        var updated := users;
        updated := updated[idx := Refreshed(updated[idx], auth, nowIso)];
        users := updated;
      } else {
        users := [Fresh(auth, nowIso)] + users;
      }
      stored := Persisted(users, stored);
    }

    /** The `user_login` listener: an event without a `detail` is ignored. */
    method HandleLoginEvent(detail: Option<Auth.User>, nowIso: string)
      requires Valid()
      modifies this
      ensures Valid()
      ensures detail.None? ==> users == old(users) && stored == old(stored)
      ensures detail.Some? ==> users == Synced(old(users), detail.value, nowIso)
      ensures stored == Persisted(users, old(stored))
    {
      if detail.Some? {
        SyncAuthUser(detail.value, nowIso);
      }
    }
  }

  /** An interactive login, with its event delivered to the directory in the same tick. */
  method LoginAndSync(session: Auth.Session, dir: Directory, u: Auth.User, nowIso: string)
    requires dir.Valid()
    modifies session, dir
    ensures session.Valid() && session.user == Some(u)
    ensures session.published == old(session.published) + [u]
    ensures dir.Valid() && dir.users == Synced(old(dir.users), u, nowIso)
  {
    session.Login(u);
    dir.HandleLoginEvent(Some(session.published[|session.published| - 1]), nowIso);
  }

  /** A cold start: the restored session's re-published event reaches the directory. */
  method MountAndSync(initial: Slot<Auth.User>, dir: Directory, nowIso: string)
    returns (session: Auth.Session)
    requires dir.Valid()
    modifies dir
    ensures session.Valid() && fresh(session)
    ensures initial.Holds? ==> session.user == Some(initial.value)
    ensures initial.Holds? ==> dir.users == Synced(old(dir.users), initial.value, nowIso)
    ensures !initial.Holds? ==> session.user == None && dir.users == old(dir.users)
    ensures dir.Valid()
  {
    session := new Auth.Session.Mount(initial);
    if |session.published| == 1 {
      dir.HandleLoginEvent(Some(session.published[0]), nowIso);
    }
  }
}
