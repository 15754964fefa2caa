/**
 * The mock session store: login looks the email up in the employee roster
 * and accepts one shared demo password; the signed-in identity is kept in
 * memory and mirrored in the browser's storage under a fixed key.
 */
module Auth {
  import opened Common
  import opened EmployeeData

  /**
   * The session identity. The role is declared as one of three values but
   * is copied unchecked from the roster's free-form role string.
   */
  datatype User = User(id: string, name: string, email: string, role: string, avatar: string)

  const DemoPassword := "123456"

  /** The storage key the identity is saved under. */
  const SessionKey := "clickCelularesUser"

  /** `roster.find(emp => emp.email === email)`: the first employee with that exact email. */
  function FindByEmail(roster: seq<Employee>, email: string): (r: Option<Employee>)
    ensures r.None? <==> forall i :: 0 <= i < |roster| ==> roster[i].email != email
    ensures r.Some? ==> exists i :: 0 <= i < |roster| && roster[i] == r.value && FirstWithEmail(roster, email, i)
  {
    Find(roster, (e: Employee) => e.email == email)
  }

  /** Position `i` holds the first employee whose email is `email`. */
  ghost predicate FirstWithEmail(roster: seq<Employee>, email: string, i: int) {
    FirstMatch(roster, (e: Employee) => e.email == email, i)
  }

  /** The `{id, name, email, role, avatar}` projection of an employee. */
  function ToUser(e: Employee): User {
    User(e.id, e.name, e.email, e.role, e.avatar)
  }

  /** What a login attempt yields: the identity to sign in, or nothing. */
  function LoginOutcome(roster: seq<Employee>, email: string, password: string): (r: Option<User>)
    ensures r.Some? ==> password == DemoPassword && r.value.email == email
    ensures r.Some? ==> exists i :: 0 <= i < |roster| && r.value == ToUser(roster[i])
  {
    match FindByEmail(roster, email)
    case Some(e) => if password == DemoPassword then Some(ToUser(e)) else None
    case None => None
  }

  /**
   * A login succeeds exactly when some roster employee has that email and
   * the password is the demo constant; the employee's status is never
   * consulted. On success the identity is the projection of the first
   * employee with that email.
   */
  lemma LoginSucceedsIff(roster: seq<Employee>, email: string, password: string)
    ensures LoginOutcome(roster, email, password).Some? <==>
              (exists i :: 0 <= i < |roster| && roster[i].email == email) && password == DemoPassword
    ensures LoginOutcome(roster, email, password).Some? ==>
              exists i :: FirstWithEmail(roster, email, i) && LoginOutcome(roster, email, password).value == ToUser(roster[i])
  {
  }

  /** In a roster without repeated emails, the identity is the employee's own projection. */
  lemma LoginFindsTheEmployee(roster: seq<Employee>, i: int)
    requires Distinct(Emails(roster))
    requires 0 <= i < |roster|
    ensures LoginOutcome(roster, roster[i].email, DemoPassword) == Some(ToUser(roster[i]))
  {
    var email := roster[i].email;
    var found := FindByEmail(roster, email);
    assert found.Some?;
    var j :| 0 <= j < |roster| && roster[j] == found.value && FirstWithEmail(roster, email, j);
    assert j <= i;
    assert j == i by {
      var emails := Emails(roster);
      assert emails[j] == email == emails[i];
    }
  }

  /** Every seed employee, inactive ones included, can sign in with the demo password. */
  lemma SeedEmployeesCanLogin()
    ensures forall i :: 0 <= i < |SeedEmployees| ==>
              LoginOutcome(SeedEmployees, SeedEmployees[i].email, DemoPassword) == Some(ToUser(SeedEmployees[i]))
  {
    SeedEmailsDistinct();
    forall i | 0 <= i < |SeedEmployees|
      ensures LoginOutcome(SeedEmployees, SeedEmployees[i].email, DemoPassword) == Some(ToUser(SeedEmployees[i]))
    {
      LoginFindsTheEmployee(SeedEmployees, i);
    }
  }

  /** The session state of the application. */
  class AuthProvider {
    /** The roster login searches. */
    const roster: seq<Employee>
    /** The signed-in identity, if any. */
    var user: Option<User>
    var isLoading: bool
    /** The browser storage entry under `SessionKey`: absent means logged out. */
    var stored: Option<User>

    /** A fresh provider: nobody signed in yet, loading until mounted. */
    constructor (roster: seq<Employee>, stored: Option<User>)
      ensures this.roster == roster && this.stored == stored
      ensures user == None && isLoading
    {
      this.roster := roster;
      this.stored := stored;
      user := None;
      isLoading := true;
    }

    /** On mount: restore the identity from storage when the key is present; stop loading. */
    method Mount()
      modifies this
      ensures user == (if old(stored).Some? then old(stored) else old(user))
      ensures stored == old(stored) && !isLoading
    {
      if stored.Some? {
        user := stored;
      }
      isLoading := false;
    }

    /**
     * Attempt a login. On success the identity is signed in and saved; on
     * failure neither the identity nor storage changes. Loading ends either way.
     */
    method Login(email: string, password: string) returns (ok: bool)
      modifies this
      ensures ok <==> LoginOutcome(roster, email, password).Some?
      ensures ok ==> user == LoginOutcome(roster, email, password) && stored == user
      ensures !ok ==> user == old(user) && stored == old(stored)
      ensures !isLoading
    {
      isLoading := true;
      var found := FindByEmail(roster, email);
      if found.Some? && password == DemoPassword {
        var userData := ToUser(found.value);
        user := Some(userData);
        stored := Some(userData);
        isLoading := false;
        return true;
      }
      isLoading := false;
      return false;
    }

    /** Sign out: forget the identity and remove it from storage. */
    method Logout()
      modifies this
      ensures user == None && stored == None && isLoading == old(isLoading)
    {
      user := None;
      stored := None;
    }
  }
}
