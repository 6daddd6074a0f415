/**
 * The session gate: the `logged_in` and `user` flags of the interactive
 * session (app.py:76-80), set by a successful login (app.py:125-127) and
 * cleared by logout (app.py:157-159).
 */
module SessionGate {
  import opened Wrappers
  import opened Credentials

  /** The two states of the gate; Anonymous is where every session starts. */
  datatype Gate = Anonymous | Authenticated(name: string)

  class Session {
    var loggedIn: bool
    var user: Option<string>

    /** The two flags always move together. */
    ghost predicate Valid()
      reads this
    {
      loggedIn <==> user.Some?
    }

    /** The flags read as one of the two states. */
    function State(): (g: Gate)
      reads this
      requires Valid()
      ensures g.Anonymous? <==> !loggedIn
      ensures g.Authenticated? ==> user == Some(g.name)
    {
      if loggedIn then Authenticated(user.value) else Anonymous
    }

    /** A fresh session starts logged out, with no user. */
    constructor ()
      ensures Valid() && State() == Anonymous
      ensures !loggedIn && user == None
    {
      loggedIn := false;
      user := None;
    }

    /**
     * The Login button: succeeds exactly when a stored row has this username
     * and the hash of this password; only then does the session change.
     */
    method Login(users: UserTable, name: string, password: string) returns (ok: bool)
      requires Valid()
      modifies this
      ensures Valid()
      ensures ok == Authenticates(users.rows, name, password)
      ensures ok ==> loggedIn && user == Some(name) && State() == Authenticated(name)
      ensures !ok ==> loggedIn == old(loggedIn) && user == old(user)
    {
      ok := Authenticates(users.rows, name, password);
      if ok {
        loggedIn := true;
        user := Some(name);
      }
    }

    /** The Logout button returns the session to its initial state. */
    method Logout()
      requires Valid()
      modifies this
      ensures Valid() && State() == Anonymous
      ensures !loggedIn && user == None
    {
      loggedIn := false;
      user := None;
    }
  }

  /**
   * A full round on one session over a users table that register built: after
   * a login with the registered password the gate is Authenticated, and after
   * logout it is Anonymous again.
   */
  method LoginLogoutRound(users: UserTable, name: string, password: string) returns (before: Gate, during: Gate, after: Gate)
    requires users.Valid()
    requires Authenticates(users.rows, name, password)
    ensures before == Anonymous && during == Authenticated(name) && after == Anonymous
  {
    var s := new Session();
    before := s.State();
    var ok := s.Login(users, name, password);
    during := s.State();
    s.Logout();
    after := s.State();
  }
}
