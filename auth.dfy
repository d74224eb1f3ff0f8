/**
 * The authentication context: a fixed table of users, a login that looks a
 * user up by e-mail (ignoring case) and password, logout, and the restore of
 * a saved session when the provider mounts.
 *
 * Browser storage is a map from key to string. `JSON.stringify` and
 * `JSON.parse` are library calls whose behaviour is not modelled: they are
 * passed in as functions, parsing returning `None` when it throws.
 * The login's simulated delay is dropped.
 */
module Auth {
  import opened Wrappers
  import Ascii

  datatype User = User(id: int, name: string, email: string, password: string, avatar: string)

  /** A user record without its password. */
  datatype SafeUser = SafeUser(id: int, name: string, email: string, avatar: string)

  const DummyUsers: seq<User> := [
    User(1, "Alex Johnson", "alex@company.com", "password123", "AJ"),
    User(2, "Sarah Smith", "sarah@company.com", "password123", "SS"),
    User(3, "Demo User", "demo", "demo", "DU")
  ]

  const UserKey := "taskflow_user"
  const AchievementsKey := "taskflow_achievements"
  const InvalidCredentials := "Invalid email or password"

  /** The lookup's test: the e-mail matches ignoring case, the password exactly. */
  predicate Accepts(u: User, email: string, password: string) {
    Ascii.Lower(u.email) == Ascii.Lower(email) && u.password == password
  }

  /** The index of the first user that accepts the credentials, or -1. */
  function FirstAccepting(users: seq<User>, email: string, password: string): (r: int)
    ensures -1 <= r < |users|
    ensures r == -1 <==> forall j :: 0 <= j < |users| ==> !Accepts(users[j], email, password)
    ensures r >= 0 ==> Accepts(users[r], email, password)
    ensures r >= 0 ==> forall j :: 0 <= j < r ==> !Accepts(users[j], email, password)
  {
    if users == [] then -1
    else if Accepts(users[0], email, password) then 0
    else
      var k := FirstAccepting(users[1..], email, password);
      if k == -1 then -1 else k + 1
  }

  /** `const { password: _, ...safeUser } = foundUser`. */
  function WithoutPassword(u: User): (s: SafeUser)
    ensures s.id == u.id && s.name == u.name && s.email == u.email && s.avatar == u.avatar
  {
    SafeUser(u.id, u.name, u.email, u.avatar)
  }

  /** The outcome of a login against the account table `users`: the first
      accepting user without the password, or the error. */
  function Authenticate(users: seq<User>, email: string, password: string): (r: Result<SafeUser>)
    ensures r.Err? <==> forall j :: 0 <= j < |users| ==> !Accepts(users[j], email, password)
    ensures r.Err? ==> r.error == InvalidCredentials
    ensures r.Ok? ==>
      exists k :: && 0 <= k < |users|
                  && Accepts(users[k], email, password)
                  && (forall j :: 0 <= j < k ==> !Accepts(users[j], email, password))
                  && r.value == WithoutPassword(users[k])
  {
    var k := FirstAccepting(users, email, password);
    if k == -1 then Err(InvalidCredentials) else Ok(WithoutPassword(users[k]))
  }

  /** Distinct accounts of the table stay distinct once stripped, so the
      signed-in record identifies the account that accepted. */
  lemma StrippedAccountsDistinct(i: nat, j: nat)
    requires i < j < |DummyUsers|
    ensures WithoutPassword(DummyUsers[i]) != WithoutPassword(DummyUsers[j])
  {
  }

  /** Logins that differ only in the case of the e-mail have the same outcome. */
  lemma {:induction false} AuthenticateIgnoresCase(users: seq<User>, e1: string, e2: string, password: string)
    requires Ascii.Lower(e1) == Ascii.Lower(e2)
    ensures FirstAccepting(users, e1, password) == FirstAccepting(users, e2, password)
  {
    if users != [] {
      assert Accepts(users[0], e1, password) == Accepts(users[0], e2, password);
      AuthenticateIgnoresCase(users[1..], e1, e2, password);
    }
  }

  /** The demo account logs in with its e-mail in any capitalisation. */
  lemma DemoAccountLogsIn(email: string)
    requires Ascii.Lower(email) == "demo"
    ensures Authenticate(DummyUsers, email, "demo") == Ok(SafeUser(3, "Demo User", "demo", "DU"))
  {
    DemoIsFirstMatch(email);
  }

  lemma DemoIsFirstMatch(email: string)
    requires Ascii.Lower(email) == "demo"
    ensures FirstAccepting(DummyUsers, email, "demo") == 2
  {
    DemoUserAccepts(email);
    LongerEmailsReject(email);
  }

  lemma DemoUserAccepts(email: string)
    requires Ascii.Lower(email) == "demo"
    ensures Accepts(DummyUsers[2], email, "demo")
  {
    Ascii.LowerIs("demo", "demo");
  }

  /** The first two users' e-mails are longer than four letters. */
  lemma LongerEmailsReject(email: string)
    requires |email| == 4
    ensures !Accepts(DummyUsers[0], email, "demo") && !Accepts(DummyUsers[1], email, "demo")
  {
    assert |Ascii.Lower(DummyUsers[0].email)| != |Ascii.Lower(email)|;
    assert |Ascii.Lower(DummyUsers[1].email)| != |Ascii.Lower(email)|;
  }

  /** The password is compared exactly: no user has the password "Demo". */
  lemma PasswordIsCaseSensitive(email: string)
    ensures Authenticate(DummyUsers, email, "Demo") == Err(InvalidCredentials)
  {
    assert forall j :: 0 <= j < |DummyUsers| ==> DummyUsers[j].password != "Demo";
  }

  /** The provider's state: the account table it checks logins against, the
      signed-in user, the loading flag, and storage. */
  class AuthProvider {
    const users: seq<User>
    var user: Option<SafeUser>
    var isLoading: bool
    var storage: map<string, string>

    /** `useState(null)`, `useState(true)`, over the browser's storage. */
    constructor (saved: map<string, string>)
      ensures users == DummyUsers
      ensures user == None && isLoading && storage == saved
    {
      users := DummyUsers;
      user := None;
      isLoading := true;
      storage := saved;
    }

    /** `isAuthenticated = !!user`. */
    function IsAuthenticated(): (b: bool)
      reads this
      ensures b <==> user.Some?
    {
      user.Some?
    }

    /** The mount effect: a non-empty saved user is parsed and restored, or
        removed when it does not parse; loading ends either way. */
    method Restore(parse: string -> Option<SafeUser>)
      modifies this
      ensures !isLoading
      ensures var saved := if UserKey in old(storage) then old(storage)[UserKey] else "";
        if saved == "" then user == old(user) && storage == old(storage)
        else if parse(saved).Some? then user == parse(saved) && storage == old(storage)
        else user == old(user) && storage == old(storage) - {UserKey}
    {
      if UserKey in storage && storage[UserKey] != "" {
        var parsed := parse(storage[UserKey]);
        if parsed.Some? {
          user := parsed;
        } else {
          storage := storage - {UserKey};
        }
      }
      isLoading := false;
    }

    /** `login(email, password)`: on success signs the user in and saves the
        record without its password; on failure changes nothing. */
    method Login(email: string, password: string, stringify: SafeUser -> string) returns (r: Result<SafeUser>)
      modifies this
      ensures r == Authenticate(users, email, password)
      ensures isLoading == old(isLoading)
      ensures r.Ok? ==> user == Some(r.value) && storage == old(storage)[UserKey := stringify(r.value)]
      ensures r.Err? ==> user == old(user) && storage == old(storage)
    {
      r := Authenticate(users, email, password);
      if r.Ok? {
        user := Some(r.value);
        storage := storage[UserKey := stringify(r.value)];
      }
    }

    /** `logout()`: signs out and forgets the saved user and achievements. */
    method Logout()
      modifies this
      ensures user == None && isLoading == old(isLoading)
      ensures storage == old(storage) - {UserKey, AchievementsKey}
    {
      user := None;
      storage := storage - {UserKey};
      storage := storage - {AchievementsKey};
    }
  }

  /** A session: nothing saved, the demo user logs in, then out. */
  method SessionScenario(stringify: SafeUser -> string, parse: string -> Option<SafeUser>)
  {
    var auth := new AuthProvider(map[]);
    auth.Restore(parse);
    assert !auth.IsAuthenticated() && !auth.isLoading;
    Ascii.LowerIs("DEMO", "demo");
    DemoAccountLogsIn("DEMO");
    PasswordIsCaseSensitive("demo");
    var r := auth.Login("DEMO", "demo", stringify);
    assert r.Ok? && auth.IsAuthenticated() && UserKey in auth.storage;
    var bad := auth.Login("demo", "Demo", stringify);
    assert bad.Err? && auth.user == Some(r.value);
    auth.Logout();
    assert !auth.IsAuthenticated() && UserKey !in auth.storage && AchievementsKey !in auth.storage;
  }
}
