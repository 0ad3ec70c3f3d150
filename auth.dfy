/**
 * The session: a demo credential table, login by exact email and password,
 * logout, mock registration, and the role checks derived from the current user.
 */
module Auth {
  import opened Wrappers
  import opened Seqs

  datatype Role = Admin | RaceOrganizer | HorseOwner | Judge | PublicViewer

  /** The user kept as the session's current user; it has no password field. */
  datatype User = User(id: string, name: string, email: string, role: Role, avatar: Option<string>)

  /** A demo account: a user together with its password. */
  datatype Account = Account(user: User, password: string)

  const DemoAccounts: seq<Account> := [
    Account(User("1", "أحمد العلي", "admin@races.com", Admin, None), "admin123"),
    Account(User("2", "محمد السباق", "organizer@races.com", RaceOrganizer, None), "org123"),
    Account(User("3", "فاطمة الخيل", "owner@races.com", HorseOwner, None), "owner123"),
    Account(User("4", "علي الحكم", "judge@races.com", Judge, None), "judge123"),
    Account(User("5", "زائر عام", "viewer@races.com", PublicViewer, None), "viewer123")
  ]

  function Matches(email: string, password: string): Account -> bool {
    (a: Account) => a.user.email == email && a.password == password
  }

  /**
   * The user a login with these credentials makes current: the first demo account
   * with exactly this email and this password, without its password.
   */
  function LookUp(email: string, password: string): (r: Option<User>)
    ensures r.Some? <==> exists i :: 0 <= i < |DemoAccounts| && DemoAccounts[i].user.email == email && DemoAccounts[i].password == password
    ensures r.Some? ==> exists i :: (0 <= i < |DemoAccounts| && DemoAccounts[i].user == r.value
      && DemoAccounts[i].user.email == email && DemoAccounts[i].password == password
      && forall j :: 0 <= j < i ==> !(DemoAccounts[j].user.email == email && DemoAccounts[j].password == password))
  {
    match FindIndex(DemoAccounts, Matches(email, password))
    case None => None
    case Some(i) => Some(DemoAccounts[i].user)
  }

  /** `hasRole`: false without a user, otherwise whether the user's role is listed. */
  function HasRole(user: Option<User>, roles: seq<Role>): (r: bool)
    ensures user.None? ==> !r
    ensures user.Some? ==> (r <==> user.value.role in roles)
  {
    user.Some? && user.value.role in roles
  }

  /** `isAuthenticated`: exactly the sessions for which some role check can pass. */
  function IsAuthenticated(user: Option<User>): (r: bool)
    ensures forall roles :: HasRole(user, roles) ==> r
    ensures r ==> user.Some? && HasRole(user, [user.value.role])
  {
    user.Some?
  }

  /** The authentication context's state: the current user, if any. */
  class Session {
    var user: Option<User>

    constructor ()
      ensures user == None
    {
      user := None;
    }

    /** Start-up: a user saved by an earlier session becomes current, if there is one. */
    method Restore(saved: Option<User>)
      modifies this
      ensures user == if saved.Some? then saved else old(user)
    {
      if saved.Some? {
        user := saved;
      }
    }

    method Login(email: string, password: string) returns (ok: bool)
      modifies this
      ensures ok <==> LookUp(email, password).Some?
      ensures ok ==> user == LookUp(email, password)
      ensures !ok ==> user == old(user)
    {
      var found := LookUp(email, password);
      if found.Some? {
        user := found;
        ok := true;
      } else {
        ok := false;
      }
    }

    method Logout()
      modifies this
      ensures user == None && !IsAuthenticated(user)
    {
      user := None;
    }

    /** Mock registration: always succeeds; the password and avatar are dropped. */
    method Register(name: string, email: string, role: Role, password: string, freshId: string) returns (ok: bool)
      modifies this
      ensures ok
      ensures user == Some(User(freshId, name, email, role, None))
    {
      user := Some(User(freshId, name, email, role, None));
      ok := true;
    }
  }

  /** No two demo accounts share an email. */
  lemma DemoEmailsDistinct()
    ensures forall i, j :: 0 <= i < j < |DemoAccounts| ==> DemoAccounts[i].user.email != DemoAccounts[j].user.email
  {
    var admin, organizer, owner, judge, viewer :=
      DemoAccounts[0].user.email, DemoAccounts[1].user.email, DemoAccounts[2].user.email,
      DemoAccounts[3].user.email, DemoAccounts[4].user.email;
    assert admin[0] == 'a' && organizer[0] == 'o' && owner[0] == 'o' && judge[0] == 'j' && viewer[0] == 'v';
    assert organizer[1] == 'r' && owner[1] == 'w';
  }

  /** Each demo account logs in with its own credentials and becomes that user. */
  lemma DemoLogins()
    ensures forall i :: 0 <= i < |DemoAccounts| ==>
      LookUp(DemoAccounts[i].user.email, DemoAccounts[i].password) == Some(DemoAccounts[i].user)
  {
    DemoEmailsDistinct();
    forall i | 0 <= i < |DemoAccounts|
      ensures LookUp(DemoAccounts[i].user.email, DemoAccounts[i].password) == Some(DemoAccounts[i].user)
    {
      var a := DemoAccounts[i];
      var r := LookUp(a.user.email, a.password);
      assert r.Some?;
      var k :| 0 <= k < |DemoAccounts| && DemoAccounts[k].user == r.value
        && DemoAccounts[k].user.email == a.user.email && DemoAccounts[k].password == a.password;
      assert k == i;
    }
  }

  /** A correct email with a wrong password is refused. */
  lemma WrongPasswordRefused()
    ensures LookUp("admin@races.com", "org123").None?
  {
  }
}
