/**
 * The authentication provider of src/contexts/AuthContext.tsx.
 *
 * The provider holds the signed-in user, a `loading` flag, the user's school id,
 * role and database id, and one record persisted in browser storage under the key
 * `sessionData`. The role is found by asking three registries in a fixed order.
 * Every query to the hosted database becomes a `Registry` value, the clock becomes a
 * `now` argument, and each asynchronous handler runs to completion as one method call.
 *
 * Each handler is specified by a transition function on an `AuthState` snapshot;
 * the class `AuthProvider` implements the handlers step by step and is proved to
 * agree with those functions, and the lemmas state what the transitions promise.
 */
module AuthContext {
  import opened Wrappers

  /** The role vocabulary of the application (`UserRole`). */
  datatype Role = SuperAdmin | SchoolAdmin | FinanceStaff | SubAdmin

  /** The signed-in account as the auth service reports it. */
  datatype User = User(id: string, email: string)

  /** The record kept in browser storage under the key `sessionData`. */
  datatype SessionData = SessionData(role: Role, schoolId: string, email: string, timestamp: int)

  /** A persisted record is trusted for 24 hours, in milliseconds. */
  const PersistWindowMs: int := 24 * 60 * 60 * 1000

  // ---------------------------------------------------------------- registries

  /** A row of `school_admins`, `super_admins` or `finance_staff` (`super_admins` rows carry no school). */
  datatype Row = Row(id: string, schoolId: string)

  /**
   * How a registry's query behaves: it answers, it answers `{data: null, error}`
   * (which the code reads as "no rows"), or it throws.
   */
  datatype QueryMode = Answers | ReturnsError | Throws

  /** One registry table: the rows filed under each email, and how its query behaves. */
  datatype Registry = Registry(rows: map<string, seq<Row>>, mode: QueryMode)

  datatype Directory = Directory(schoolAdmins: Registry, superAdmins: Registry, financeStaff: Registry)

  /** The outcome of one `.eq('email', email).limit(1)` query. */
  datatype Lookup = Hit(row: Row) | Miss | Failed

  function Query(reg: Registry, email: string): Lookup
  {
    match reg.mode
    case Throws => Failed
    case ReturnsError => Miss
    case Answers => if email in reg.rows && |reg.rows[email]| > 0 then Hit(reg.rows[email][0]) else Miss
  }

  /**
   * What role resolution settles on: a role, the school id to hold in state, the
   * database id, and the school id written to the persisted record.
   */
  datatype Resolution =
    | Resolved(role: Role, schoolId: Option<string>, dbId: string, storedSchoolId: string)
    | Unresolved

  /** The outcome of finding `row` in the registry of `role`. */
  function Found(role: Role, row: Row): Resolution
  {
    if role == SuperAdmin then Resolved(SuperAdmin, None, row.id, "")
    else Resolved(role, Some(row.schoolId), row.id, row.schoolId)
  }

  /** `determineUserRole`'s three early-returning checks, in source order. */
  function Resolve(dir: Directory, email: string): Resolution
  {
    match Query(dir.schoolAdmins, email)
    case Failed => Unresolved
    case Hit(r) => Found(SchoolAdmin, r)
    case Miss =>
      match Query(dir.superAdmins, email)
      case Failed => Unresolved
      case Hit(r) => Found(SuperAdmin, r)
      case Miss =>
        match Query(dir.financeStaff, email)
        case Hit(r) => Found(FinanceStaff, r)
        case _ => Unresolved
  }

  /** The registries in the order they are asked. */
  function Order(dir: Directory): seq<(Role, Registry)>
  {
    [(SchoolAdmin, dir.schoolAdmins), (SuperAdmin, dir.superAdmins), (FinanceStaff, dir.financeStaff)]
  }

  /** Reference definition: walk the registries in order; the first that throws ends the search, the first hit wins. */
  function FirstHit(regs: seq<(Role, Registry)>, email: string): Resolution
  {
    if regs == [] then Unresolved
    else
      match Query(regs[0].1, email)
      case Failed => Unresolved
      case Hit(r) => Found(regs[0].0, r)
      case Miss => FirstHit(regs[1..], email)
  }

  /** The if-chain agrees with the ordered search over school_admins, super_admins, finance_staff. */
  lemma ResolveIsFirstHit(dir: Directory, email: string)
    ensures Resolve(dir, email) == FirstHit(Order(dir), email)
  {
    var o := Order(dir);
    assert o[1..] == [(SuperAdmin, dir.superAdmins), (FinanceStaff, dir.financeStaff)];
    assert o[1..][1..] == [(FinanceStaff, dir.financeStaff)];
    assert o[1..][1..][1..] == [];
    assert FirstHit(o[1..][1..][1..], email) == Unresolved;
    assert FirstHit(o[1..][1..], email) == match Query(dir.financeStaff, email)
      case Hit(r) => Found(FinanceStaff, r)
      case _ => Unresolved;
  }

  /**
   * The registry at position `i` decides the role exactly when it holds a row for the
   * email and every earlier registry answered without one; only its row 0 is used.
   */
  lemma {:induction false} FirstHitWins(regs: seq<(Role, Registry)>, email: string, i: nat)
    requires i < |regs|
    requires forall j :: 0 <= j < i ==> Query(regs[j].1, email).Miss?
    requires regs[i].1.mode == Answers && email in regs[i].1.rows && |regs[i].1.rows[email]| > 0
    ensures FirstHit(regs, email) == Found(regs[i].0, regs[i].1.rows[email][0])
  {
    if i > 0 {
      assert Query(regs[0].1, email).Miss?;
      FirstHitWins(regs[1..], email, i - 1);
    }
  }

  /** The search ends unresolved exactly when no registry hits before the first one that throws. */
  lemma {:induction false} FirstHitUnresolved(regs: seq<(Role, Registry)>, email: string)
    ensures FirstHit(regs, email).Unresolved? <==>
      forall i :: 0 <= i < |regs| && Query(regs[i].1, email).Hit? ==>
        exists j :: 0 <= j < i && Query(regs[j].1, email).Failed?
  {
    if regs != [] {
      FirstHitUnresolved(regs[1..], email);
      var q := Query(regs[0].1, email);
      if q.Miss? {
        forall i | 0 <= i < |regs| && Query(regs[i].1, email).Hit? && FirstHit(regs, email).Unresolved?
          ensures exists j :: 0 <= j < i && Query(regs[j].1, email).Failed?
        {
          assert Query(regs[1..][i - 1].1, email).Hit?;
          var j :| 0 <= j < i - 1 && Query(regs[1..][j].1, email).Failed?;
          assert Query(regs[j + 1].1, email).Failed?;
        }
        if forall i :: 0 <= i < |regs| && Query(regs[i].1, email).Hit? ==>
            exists j :: 0 <= j < i && Query(regs[j].1, email).Failed? {
          forall i | 0 <= i < |regs[1..]| && Query(regs[1..][i].1, email).Hit?
            ensures exists j :: 0 <= j < i && Query(regs[1..][j].1, email).Failed?
          {
            assert Query(regs[i + 1].1, email).Hit?;
            var j :| 0 <= j < i + 1 && Query(regs[j].1, email).Failed?;
            assert j != 0;
            assert Query(regs[1..][j - 1].1, email).Failed?;
          }
        }
      }
    }
  }

  /** A school_admins row beats a super_admins or finance_staff row for the same email. */
  lemma SchoolAdminFirst(dir: Directory, email: string)
    requires dir.schoolAdmins.mode == Answers && email in dir.schoolAdmins.rows
    requires |dir.schoolAdmins.rows[email]| > 0
    ensures Resolve(dir, email) == Resolved(SchoolAdmin, Some(dir.schoolAdmins.rows[email][0].schoolId),
                                            dir.schoolAdmins.rows[email][0].id, dir.schoolAdmins.rows[email][0].schoolId)
  {
    ResolveIsFirstHit(dir, email);
    FirstHitWins(Order(dir), email, 0);
  }

  /** A super admin holds no school id, and is persisted with school id '' rather than null. */
  lemma SuperAdminHasNoSchool(dir: Directory, email: string)
    requires Query(dir.schoolAdmins, email).Miss?
    requires dir.superAdmins.mode == Answers && email in dir.superAdmins.rows
    requires |dir.superAdmins.rows[email]| > 0
    ensures Resolve(dir, email) == Resolved(SuperAdmin, None, dir.superAdmins.rows[email][0].id, "")
  {
    ResolveIsFirstHit(dir, email);
    FirstHitWins(Order(dir), email, 1);
  }

  /** Resolution never yields `sub_admin`: there is no fallback role. */
  lemma ResolveNeverSubAdmin(dir: Directory, email: string)
    ensures Resolve(dir, email).Resolved? ==> Resolve(dir, email).role != SubAdmin
  {
  }

  // ---------------------------------------------------------------- provider state

  /**
   * A snapshot of the provider: its five state variables, the persisted record,
   * and whether the auth-event subscription and the 10-second timeout are live.
   */
  datatype AuthState = AuthState(
    user: Option<User>,
    loading: bool,
    schoolId: Option<string>,
    userRole: Option<Role>,
    userDbId: Option<string>,
    stored: Option<SessionData>,
    subscribed: bool,
    timeoutArmed: bool)

  /** The provider's invariant: no role, school or database id without a user, and none of the latter without a role. */
  predicate Valid(s: AuthState)
  {
    && (s.user.None? ==> s.userRole.None?)
    && (s.userRole.None? ==> s.schoolId.None? && s.userDbId.None?)
  }

  /** A fresh provider over whatever the browser's storage already holds. */
  function Initial(stored: Option<SessionData>): (s: AuthState)
    ensures Valid(s) && s.loading
  {
    AuthState(None, true, None, None, None, stored, false, false)
  }

  /** `saveSessionData`: overwrite the single persisted record. */
  function Saved(s: AuthState, role: Role, schoolId: string, email: string, now: int): AuthState
  {
    s.(stored := Some(SessionData(role, schoolId, email, now)))
  }

  /** The persisted record is for `email` and less than 24 hours old. */
  predicate IsFresh(stored: Option<SessionData>, email: string, now: int)
  {
    stored.Some? && stored.value.email == email && now - stored.value.timestamp < PersistWindowMs
  }

  /** `loadPersistedSession`: on a fresh record, restore role and school id and stop loading. */
  function LoadedPersisted(s: AuthState, email: string, now: int): AuthState
  {
    if IsFresh(s.stored, email, now) then
      s.(userRole := Some(s.stored.value.role), schoolId := Some(s.stored.value.schoolId), loading := false)
    else s
  }

  /** `determineUserRole` for `email` at time `now`. */
  function RoleDetermined(s: AuthState, dir: Directory, email: string, now: int): AuthState
  {
    match Resolve(dir, email)
    case Resolved(role, sid, id, storedSid) =>
      Saved(s.(userRole := Some(role), schoolId := sid, userDbId := Some(id)), role, storedSid, email, now).(loading := false)
    case Unresolved =>
      s.(userRole := None, schoolId := None, userDbId := None, loading := false)
  }

  /** Clearing after a sign-out: user, role, school and database id, and the persisted record. */
  function Cleared(s: AuthState): AuthState
  {
    s.(user := None, userRole := None, schoolId := None, userDbId := None, stored := None)
  }

  /** `initializeAuth` once `getSession` has answered (`None` also stands for a thrown `getSession`). */
  function Initialized(s: AuthState, session: Option<User>, dir: Directory, now: int): AuthState
  {
    match session
    case None => s.(loading := false)
    case Some(u) =>
      var s1 := s.(user := Some(u));
      if IsFresh(s1.stored, u.email, now) then LoadedPersisted(s1, u.email, now)
      else RoleDetermined(s1, dir, u.email, now)
  }

  /** The `onAuthStateChange` handler for an event carrying `session`. */
  function AuthChanged(s: AuthState, session: Option<User>, dir: Directory, now: int): AuthState
  {
    match session
    case None => Cleared(s)
    case Some(u) =>
      var s1 := s.(user := Some(u));
      if s.stored.Some? && s.stored.value.email == u.email then s1
      else RoleDetermined(s1, dir, u.email, now)
  }

  /**
   * `signOut`: everything is cleared once `supabase.auth.signOut()` returns; when that
   * call throws (`signOutThrows`), the error is caught and logged and nothing changes.
   */
  function SignedOut(s: AuthState, signOutThrows: bool): AuthState
  {
    if signOutThrows then s else Cleared(s)
  }

  /** The effect's start: subscribe to auth events and arm the 10-second timeout. */
  function Mounted(s: AuthState): AuthState
  {
    s.(subscribed := true, timeoutArmed := true)
  }

  /** The timeout firing 10 seconds after mount: it only clears `loading`, and only while still armed. */
  function TimedOut(s: AuthState): AuthState
  {
    if s.timeoutArmed then s.(loading := false, timeoutArmed := false) else s
  }

  /** The effect's cleanup: unsubscribe and cancel the timeout. */
  function Unmounted(s: AuthState): AuthState
  {
    s.(subscribed := false, timeoutArmed := false)
  }

  // ---------------------------------------------------------------- what the transitions promise

  /** Every handler keeps the provider's invariant. */
  lemma TransitionsKeepValid(s: AuthState, session: Option<User>, dir: Directory, now: int, signOutThrows: bool)
    requires Valid(s)
    ensures Valid(Initialized(s, session, dir, now))
    ensures Valid(AuthChanged(s, session, dir, now))
    ensures Valid(SignedOut(s, signOutThrows))
    ensures Valid(Mounted(s)) && Valid(TimedOut(s)) && Valid(Unmounted(s))
  {
  }

  /**
   * Role resolution leaves the user and subscription alone, always ends loading, and either
   * sets role, school and database id and overwrites the record, or nulls all three and
   * leaves the record as it was.
   */
  lemma ResolvedEffect(s: AuthState, dir: Directory, email: string, now: int)
    ensures var r := RoleDetermined(s, dir, email, now);
      && !r.loading && r.user == s.user
      && (Resolve(dir, email).Unresolved? ==>
            r.userRole.None? && r.schoolId.None? && r.userDbId.None? && r.stored == s.stored)
      && (Resolve(dir, email).Resolved? ==>
            && r.userRole == Some(Resolve(dir, email).role)
            && r.userDbId == Some(Resolve(dir, email).dbId)
            && r.stored == Some(SessionData(Resolve(dir, email).role, Resolve(dir, email).storedSchoolId, email, now)))
  {
  }

  /** On start-up a fresh record for the session's email is used and the registries are not consulted; the database id is not restored. */
  lemma FreshRecordSkipsResolution(s: AuthState, u: User, dir: Directory, now: int)
    requires IsFresh(s.stored, u.email, now)
    ensures var r := Initialized(s, Some(u), dir, now);
      && r.user == Some(u) && !r.loading
      && r.userRole == Some(s.stored.value.role)
      && r.schoolId == Some(s.stored.value.schoolId)
      && r.userDbId == s.userDbId
      && r.stored == s.stored
  {
  }

  /** On start-up a missing, foreign or stale record leads to role resolution. */
  lemma StaleRecordResolves(s: AuthState, u: User, dir: Directory, now: int)
    requires !IsFresh(s.stored, u.email, now)
    ensures Initialized(s, Some(u), dir, now) == RoleDetermined(s.(user := Some(u)), dir, u.email, now)
  {
  }

  /**
   * An auth event for the email of the persisted record skips role resolution
   * however old the record is: role, school and database id are left as they were.
   */
  lemma AuthEventIgnoresAge(s: AuthState, u: User, dir: Directory, now: int)
    requires s.stored.Some? && s.stored.value.email == u.email
    ensures var r := AuthChanged(s, Some(u), dir, now);
      r == s.(user := Some(u))
  {
  }

  /** Explicit sign-out and a session-less auth event clear the same state and remove the record. */
  lemma SignOutClears(s: AuthState, dir: Directory, now: int)
    ensures var r := SignedOut(s, false);
      && r == AuthChanged(s, None, dir, now)
      && r.user.None? && r.userRole.None? && r.schoolId.None? && r.userDbId.None? && r.stored.None?
      && r.loading == s.loading
  {
  }

  /** Once mounted, the timeout ends loading whatever the resolution state. */
  lemma TimeoutEndsLoading(s: AuthState)
    ensures !TimedOut(Mounted(s)).loading
    ensures var r := TimedOut(Mounted(s));
      r.user == s.user && r.userRole == s.userRole && r.schoolId == s.schoolId && r.userDbId == s.userDbId
  {
  }

  /**
   * The persisted record round-trips: a role resolved for `email` at time `t` is restored
   * by a start-up less than 24 hours later, except that a super admin's school id comes
   * back as '' instead of null, and the database id is not restored.
   */
  lemma PersistRoundTrip(s: AuthState, dir: Directory, u: User, t: int, now: int, s2: AuthState)
    requires Resolve(dir, u.email).Resolved?
    requires t <= now < t + PersistWindowMs
    requires s2.stored == RoleDetermined(s, dir, u.email, t).stored
    ensures var res := Resolve(dir, u.email);
      var r := Initialized(s2, Some(u), dir, now);
      && r.userRole == Some(res.role)
      && r.schoolId == (if res.role == SuperAdmin then Some("") else res.schoolId)
      && r.userDbId == s2.userDbId
  {
  }

  // ---------------------------------------------------------------- requests without state

  /** The auth service's reply to a password sign-in. */
  datatype SignInReply = Accepted | Rejected(error: string) | Threw(error: string)

  /** `signIn`: the error to hand back, `None` for `{error: null}`; no provider state changes. */
  function SignIn(reply: SignInReply): (r: Option<string>)
    ensures r.None? <==> reply.Accepted?
    ensures r.Some? ==> r.value == reply.error
  {
    match reply
    case Accepted => None
    case Rejected(e) => Some(e)
    case Threw(e) => Some(e)
  }

  /** The body of the `updateUser` request. */
  datatype UserUpdate = UserUpdate(password: string)

  /** `changePassword`: the current password is not checked; only the new one is sent. */
  function ChangePassword(currentPassword: string, newPassword: string): (r: UserUpdate)
    ensures r.password == newPassword
  {
    UserUpdate(newPassword)
  }

  lemma ChangePasswordIgnoresCurrent(a: string, b: string, newPassword: string)
    ensures ChangePassword(a, newPassword) == ChangePassword(b, newPassword)
  {
  }

  /** What `refreshSessionIfNeeded` does: whether it asks for a refresh, and the value it resolves to. */
  datatype RefreshCall = RefreshCall(refreshRequested: bool, returnsTruthy: bool)

  /** `refreshSessionIfNeeded`: refreshes when a session exists and resolves to `undefined` either way. */
  function RefreshSessionIfNeeded(hasSession: bool): (r: RefreshCall)
    ensures r.refreshRequested == hasSession
    ensures !r.returnsTruthy
  {
    RefreshCall(hasSession, false)
  }

  /** The context hands its consumers `session: null`. */
  const ContextSessionTruthy: bool := false

  // ---------------------------------------------------------------- the provider

  class AuthProvider {
    var user: Option<User>
    var loading: bool
    var schoolId: Option<string>
    var userRole: Option<Role>
    var userDbId: Option<string>
    /** Browser storage under the key `sessionData`. */
    var stored: Option<SessionData>
    var subscribed: bool
    var timeoutArmed: bool

    function State(): AuthState
      reads this
    {
      AuthState(user, loading, schoolId, userRole, userDbId, stored, subscribed, timeoutArmed)
    }

    constructor(persisted: Option<SessionData>)
      ensures State() == Initial(persisted)
    {
      user := None;
      loading := true;
      schoolId := None;
      userRole := None;
      userDbId := None;
      stored := persisted;
      subscribed := false;
      timeoutArmed := false;
    }

    method SaveSessionData(role: Role, sid: string, email: string, now: int)
      modifies this
      ensures State() == Saved(old(State()), role, sid, email, now)
    {
      stored := Some(SessionData(role, sid, email, now));
    }

    method LoadPersistedSession(email: string, now: int) returns (loaded: bool)
      modifies this
      ensures loaded == IsFresh(old(stored), email, now)
      ensures State() == LoadedPersisted(old(State()), email, now)
    {
      if stored.Some? {
        var record := stored.value;
        var isRecent := now - record.timestamp < PersistWindowMs;
        if record.email == email && isRecent {
          userRole := Some(record.role);
          schoolId := Some(record.schoolId);
          loading := false;
          return true;
        }
      }
      return false;
    }

    /** The three checks and the catch-all, each returning early. */
    method DetermineUserRole(dir: Directory, email: string, now: int)
      modifies this
      ensures State() == RoleDetermined(old(State()), dir, email, now)
    {
      var schoolAdminData := Query(dir.schoolAdmins, email);
      if schoolAdminData.Failed? {
        ClearRole();
        return;
      }
      if schoolAdminData.Hit? {
        var row := schoolAdminData.row;
        userRole := Some(SchoolAdmin);
        schoolId := Some(row.schoolId);
        userDbId := Some(row.id);
        SaveSessionData(SchoolAdmin, row.schoolId, email, now);
        loading := false;
        return;
      }
      var superAdminData := Query(dir.superAdmins, email);
      if superAdminData.Failed? {
        ClearRole();
        return;
      }
      if superAdminData.Hit? {
        userRole := Some(SuperAdmin);
        schoolId := None;
        userDbId := Some(superAdminData.row.id);
        SaveSessionData(SuperAdmin, "", email, now);
        loading := false;
        return;
      }
      var financeStaffData := Query(dir.financeStaff, email);
      if financeStaffData.Hit? {
        var row := financeStaffData.row;
        userRole := Some(FinanceStaff);
        schoolId := Some(row.schoolId);
        userDbId := Some(row.id);
        SaveSessionData(FinanceStaff, row.schoolId, email, now);
        loading := false;
        return;
      }
      ClearRole();
    }

    /** The no-role and catch branches of `determineUserRole`. */
    method ClearRole()
      modifies this
      ensures State() == old(State()).(userRole := None, schoolId := None, userDbId := None, loading := false)
    {
      userRole := None;
      schoolId := None;
      userDbId := None;
      loading := false;
    }

    method InitializeAuth(session: Option<User>, dir: Directory, now: int)
      modifies this
      ensures State() == Initialized(old(State()), session, dir, now)
    {
      if session.None? {
        loading := false;
        return;
      }
      var u := session.value;
      user := Some(u);
      var persistedLoaded := LoadPersistedSession(u.email, now);
      if persistedLoaded {
        return;
      }
      DetermineUserRole(dir, u.email, now);
    }

    method OnAuthStateChange(session: Option<User>, dir: Directory, now: int)
      modifies this
      ensures State() == AuthChanged(old(State()), session, dir, now)
    {
      if session.Some? {
        var u := session.value;
        user := Some(u);
        if stored.Some? && stored.value.email == u.email {
          return;
        }
        DetermineUserRole(dir, u.email, now);
      } else {
        user := None;
        userRole := None;
        schoolId := None;
        userDbId := None;
        stored := None;
      }
    }

    method SignOut(signOutThrows: bool)
      modifies this
      ensures State() == SignedOut(old(State()), signOutThrows)
    {
      if signOutThrows {
        return;
      }
      user := None;
      userRole := None;
      schoolId := None;
      userDbId := None;
      stored := None;
    }

    method Mount()
      modifies this
      ensures State() == Mounted(old(State()))
    {
      subscribed := true;
      timeoutArmed := true;
    }

    method TimeoutFired()
      modifies this
      ensures State() == TimedOut(old(State()))
    {
      if timeoutArmed {
        loading := false;
        timeoutArmed := false;
      }
    }

    method Unmount()
      modifies this
      ensures State() == Unmounted(old(State()))
    {
      subscribed := false;
      timeoutArmed := false;
    }
  }
}
