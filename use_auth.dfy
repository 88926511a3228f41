/**
 * The `useAuth` hook: the admin's login state, mirrored in a browser
 * storage slot that survives reloads.
 */
module UseAuth {
  import opened Wrappers

  datatype AuthState = AuthState(isAuthenticated: bool, token: Option<string>)

  const LoggedOut: AuthState := AuthState(false, None)

  /** What the hook can be asked to do. */
  datatype AuthEvent = Mount | Login(token: string) | Logout

  /** The hook's state together with the storage slot `admin_token`. */
  datatype Session = Session(storage: Option<string>, auth: AuthState)

  /** The invariant the hook keeps: authenticated exactly when a token is held. */
  predicate Consistent(a: AuthState) {
    a.isAuthenticated <==> a.token.Some?
  }

  /** A fresh hook over whatever the storage holds. */
  function Initial(storage: Option<string>): Session {
    Session(storage, LoggedOut)
  }

  /**
   * One event: mounting restores a non-empty stored token, login stores
   * and holds the token, logout clears both.
   */
  function Step(s: Session, e: AuthEvent): (r: Session)
    ensures e.Login? ==> r == Session(Some(e.token), AuthState(true, Some(e.token)))
    ensures e.Logout? ==> r == Session(None, LoggedOut)
    ensures e.Mount? ==> r.storage == s.storage
    ensures e.Mount? && (s.storage.None? || s.storage.value == "") ==> r == s
    ensures e.Mount? && s.storage.Some? && s.storage.value != "" ==> r.auth == AuthState(true, s.storage)
  {
    match e
    case Mount =>
      if s.storage.Some? && s.storage.value != "" then s.(auth := AuthState(true, s.storage)) else s
    case Login(t) => Session(Some(t), AuthState(true, Some(t)))
    case Logout => Session(None, LoggedOut)
  }

  /** The session after a run of events. */
  function Run(s: Session, events: seq<AuthEvent>): Session
    decreases |events|
  {
    if events == [] then s else Run(Step(s, events[0]), events[1..])
  }

  /** Every state the hook can reach from a fresh start is consistent. */
  lemma {:induction false} ReachableConsistent(s: Session, events: seq<AuthEvent>)
    requires Consistent(s.auth)
    ensures Consistent(Run(s, events).auth)
    decreases |events|
  {
    if events != [] {
      ReachableConsistent(Step(s, events[0]), events[1..]);
    }
  }

  lemma FreshIsConsistent(storage: Option<string>)
    ensures Consistent(Initial(storage).auth)
  {
  }

  /** Logging in and then out returns to the logged-out state with empty storage. */
  lemma LoginLogout(s: Session, t: string)
    ensures Run(s, [Login(t), Logout]) == Initial(None)
  {
    var afterLogin := Step(s, Login(t));
    assert [Login(t), Logout][1..] == [Logout];
    assert Run(s, [Login(t), Logout]) == Run(afterLogin, [Logout]);
    assert Run(afterLogin, [Logout]) == Run(Step(afterLogin, Logout), []);
  }

  /** A token stored by a login is restored on the next mount, unless it is empty. */
  lemma LoginSurvivesReload(s: Session, t: string)
    ensures Step(Initial(Step(s, Login(t)).storage), Mount).auth
         == if t == "" then LoggedOut else AuthState(true, Some(t))
  {
  }

  /** The hook as a stateful object: its fields, its effects, the same steps. */
  class AuthHook {
    var storage: Option<string>
    var authState: AuthState

    ghost predicate Valid()
      reads this
    {
      Consistent(authState)
    }

    function Current(): Session
      reads this
    {
      Session(storage, authState)
    }

    /** `useState({isAuthenticated: false, token: null})`. */
    constructor (storage: Option<string>)
      ensures Valid()
      ensures Current() == Initial(storage)
    {
      this.storage := storage;
      authState := LoggedOut;
    }

    /** The mount effect: read the stored token and restore it if non-empty. */
    method Mount()
      requires Valid()
      modifies this
      ensures Valid()
      ensures Current() == Step(old(Current()), AuthEvent.Mount)
    {
      var token := storage;
      if token.Some? && token.value != "" {
        authState := AuthState(true, token);
      }
    }

    method Login(token: string)
      requires Valid()
      modifies this
      ensures Valid()
      ensures Current() == Step(old(Current()), AuthEvent.Login(token))
    {
      storage := Some(token);
      authState := AuthState(true, Some(token));
    }

    method Logout()
      requires Valid()
      modifies this
      ensures Valid()
      ensures Current() == Step(old(Current()), AuthEvent.Logout)
    {
      storage := None;
      authState := LoggedOut;
    }
  }
}
