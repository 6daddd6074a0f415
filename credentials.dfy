/**
 * The users table of the dashboard: rows of (username, password hash) under
 * a UNIQUE constraint on the username, filled by `register` and queried by
 * `login` (app.py:43-49, 87-130).
 */
module Credentials {

  /**
   * Stand-in for the SHA-256 hex digest of a password. The model never looks
   * inside a digest; all it relies on is that equal digests come from equal
   * passwords (HashInjective).
   */
  datatype Digest = Sha256(string)

  function HashPassword(password: string): Digest
  {
    Sha256(password)
  }

  lemma HashInjective(a: string, b: string)
    ensures HashPassword(a) == HashPassword(b) <==> a == b
  {
  }

  /** One row of the users table. The table's own id column is never read, so it is not kept. */
  datatype Credential = Credential(username: string, passwordHash: Digest)

  /** What the Register button reports back. */
  datatype RegisterOutcome =
    | Created        // "Account created! Now login."
    | EmptyField     // "Fill all fields"
    | UsernameTaken  // "Username already exists"

  predicate HasUser(rows: seq<Credential>, name: string)
  {
    exists i :: 0 <= i < |rows| && rows[i].username == name
  }

  /** The login query: some row matches both the username and the hash of the password. */
  predicate Authenticates(rows: seq<Credential>, name: string, password: string)
  {
    exists i :: 0 <= i < |rows| && rows[i].username == name && rows[i].passwordHash == HashPassword(password)
  }

  predicate UniqueUsernames(rows: seq<Credential>)
  {
    forall i, j :: 0 <= i < |rows| && 0 <= j < |rows| && rows[i].username == rows[j].username ==> i == j
  }

  /**
   * What every reachable users table satisfies: the UNIQUE constraint, and the
   * fact that register never lets an empty username or password through.
   */
  predicate TableInvariant(rows: seq<Credential>)
  {
    && UniqueUsernames(rows)
    && forall i :: 0 <= i < |rows| ==> rows[i].username != "" && rows[i].passwordHash != HashPassword("")
  }

  /** The branch register takes: the empty-field check first, then the UNIQUE constraint. */
  function RegisterOutcomeOf(rows: seq<Credential>, name: string, password: string): RegisterOutcome
  {
    if name == "" || password == "" then EmptyField
    else if HasUser(rows, name) then UsernameTaken
    else Created
  }

  /** The users table after register. */
  function AfterRegister(rows: seq<Credential>, name: string, password: string): seq<Credential>
  {
    if RegisterOutcomeOf(rows, name, password) == Created
    then rows + [Credential(name, HashPassword(password))]
    else rows
  }

  /** Register keeps the table invariant. */
  lemma RegisterKeepsInvariant(rows: seq<Credential>, name: string, password: string)
    requires TableInvariant(rows)
    ensures TableInvariant(AfterRegister(rows, name, password))
  {
    if RegisterOutcomeOf(rows, name, password) == Created {
      HashInjective(password, "");
    }
  }

  /**
   * Register with an empty field is rejected, and so is a username already
   * present; a rejected register leaves the table as it was. Otherwise exactly
   * one row (username, hash(password)) is appended.
   */
  lemma RegisterOutcomes(rows: seq<Credential>, name: string, password: string)
    ensures RegisterOutcomeOf(rows, name, password) == EmptyField <==> name == "" || password == ""
    ensures RegisterOutcomeOf(rows, name, password) == UsernameTaken <==>
              name != "" && password != "" && HasUser(rows, name)
    ensures RegisterOutcomeOf(rows, name, password) != Created ==> AfterRegister(rows, name, password) == rows
    ensures RegisterOutcomeOf(rows, name, password) == Created ==>
              AfterRegister(rows, name, password) == rows + [Credential(name, HashPassword(password))]
  {
  }

  /** Registering the same username a second time is refused and changes nothing. */
  lemma RegisterTwiceRefused(rows: seq<Credential>, name: string, p1: string, p2: string)
    requires RegisterOutcomeOf(rows, name, p1) == Created
    requires p2 != ""
    ensures RegisterOutcomeOf(AfterRegister(rows, name, p1), name, p2) == UsernameTaken
    ensures AfterRegister(AfterRegister(rows, name, p1), name, p2) == AfterRegister(rows, name, p1)
  {
    var after := AfterRegister(rows, name, p1);
    assert after[|rows|].username == name;
  }

  /**
   * After a successful register, login with that username succeeds with the
   * registered password and with no other.
   */
  lemma RegisterThenLogin(rows: seq<Credential>, name: string, password: string, other: string)
    requires RegisterOutcomeOf(rows, name, password) == Created
    ensures Authenticates(AfterRegister(rows, name, password), name, password)
    ensures Authenticates(AfterRegister(rows, name, password), name, other) <==> other == password
  {
    var after := AfterRegister(rows, name, password);
    assert after[|rows|] == Credential(name, HashPassword(password));
    if Authenticates(after, name, other) {
      var i :| 0 <= i < |after| && after[i].username == name && after[i].passwordHash == HashPassword(other);
      assert i == |rows|;
      HashInjective(other, password);
    }
  }

  /** Registering one username changes nobody else's login. */
  lemma RegisterIsolation(rows: seq<Credential>, name: string, password: string, who: string, pw: string)
    requires who != name
    ensures Authenticates(AfterRegister(rows, name, password), who, pw) == Authenticates(rows, who, pw)
  {
    var after := AfterRegister(rows, name, password);
    if Authenticates(after, who, pw) {
      var i :| 0 <= i < |after| && after[i].username == who && after[i].passwordHash == HashPassword(pw);
      assert i < |rows| && rows[i] == after[i];
    }
    if Authenticates(rows, who, pw) {
      var i :| 0 <= i < |rows| && rows[i].username == who && rows[i].passwordHash == HashPassword(pw);
      assert after[i] == rows[i];
    }
  }

  /**
   * In a reachable table a username has at most one password that logs in,
   * and an empty username or an empty password never logs in.
   */
  lemma LoginDeterminesPassword(rows: seq<Credential>, name: string, p: string, q: string)
    requires TableInvariant(rows)
    requires Authenticates(rows, name, p) && Authenticates(rows, name, q)
    ensures p == q && name != "" && p != ""
  {
    var i :| 0 <= i < |rows| && rows[i].username == name && rows[i].passwordHash == HashPassword(p);
    var j :| 0 <= j < |rows| && rows[j].username == name && rows[j].passwordHash == HashPassword(q);
    assert i == j;
    HashInjective(p, q);
    HashInjective(p, "");
  }

  /** A successful login names a registered user. */
  lemma LoginNeedsRegisteredUser(rows: seq<Credential>, name: string, password: string)
    requires Authenticates(rows, name, password)
    ensures HasUser(rows, name)
  {
    var i :| 0 <= i < |rows| && rows[i].username == name && rows[i].passwordHash == HashPassword(password);
  }

  /** The users table, updated in place by register. */
  class UserTable {
    var rows: seq<Credential>

    ghost predicate Valid()
      reads this
    {
      TableInvariant(rows)
    }

    constructor ()
      ensures Valid() && rows == []
    {
      rows := [];
    }

    /** The Register button (app.py:94-108); only the duplicate-username failure of the INSERT is modelled. */
    method Register(name: string, password: string) returns (outcome: RegisterOutcome)
      requires Valid()
      modifies this
      ensures Valid()
      ensures outcome == RegisterOutcomeOf(old(rows), name, password)
      ensures rows == AfterRegister(old(rows), name, password)
    {
      RegisterKeepsInvariant(rows, name, password);
      if name == "" || password == "" {
        return EmptyField;
      }
      if HasUser(rows, name) {
        return UsernameTaken;
      }
      rows := rows + [Credential(name, HashPassword(password))];
      outcome := Created;
    }
  }
}
