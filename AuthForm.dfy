/**
 * The login and registration form. Login checks for empty fields, then,
 * after a simulated delay, looks the pair up in a table of three demo
 * accounts; registration checks for empty fields, a password mismatch and a
 * short password, in that order, and after the delay stores the new user.
 * Each delay is modelled as a separate completion step that works on the
 * values captured when the form was submitted.
 */
module AuthForm {
  import opened Wrappers
  import Text

  datatype Role = Admin | Client | Organizer

  /** The user record written to storage under `user`. */
  datatype User = User(id: string, name: string, email: string, role: Role)

  /** A toast shown to the user. */
  datatype Notice = Error(text: string) | Success(text: string)

  const FillMessage := "Please fill in all fields"
  const InvalidMessage := "Invalid credentials. Try our demo accounts!"
  const MismatchMessage := "Passwords do not match"
  const ShortMessage := "Password must be at least 6 characters"
  const RegisteredMessage := "Registration successful!"

  /** The shortest password registration accepts. */
  const MinPasswordLength := 6

  // ---------------------------------------------------------------- login

  /** A demo account: the pair that signs in, and the user it yields. */
  datatype Account = Account(email: string, password: string, id: string, name: string, role: Role)

  const DemoAccounts: seq<Account> := [
    Account("admin@example.com", "admin123", "1", "Admin User", Admin),
    Account("client@example.com", "client123", "2", "Client User", Client),
    Account("organizer@example.com", "organizer123", "3", "Event Organizer", Organizer)
  ]

  /** The pair matches demo account `a`. */
  predicate SignsIn(a: Account, email: string, password: string)
  {
    a.email == email && a.password == password
  }

  /**
   * The credential check in the delayed login step. A pair signs in exactly
   * when it is one of the demo accounts', and the user carries that
   * account's id, name and role and the entered email.
   */
  function Authenticate(email: string, password: string): (r: Option<User>)
    ensures r.Some? <==> exists a :: a in DemoAccounts && SignsIn(a, email, password)
    ensures r.Some? ==> r.value.email == email
    ensures forall a :: a in DemoAccounts && SignsIn(a, email, password) ==> r == Some(User(a.id, a.name, email, a.role))
  {
    if email == "admin@example.com" && password == "admin123" then
      assert SignsIn(DemoAccounts[0], email, password);
      Some(User("1", "Admin User", email, Admin))
    else if email == "client@example.com" && password == "client123" then
      assert SignsIn(DemoAccounts[1], email, password);
      Some(User("2", "Client User", email, Client))
    else if email == "organizer@example.com" && password == "organizer123" then
      assert SignsIn(DemoAccounts[2], email, password);
      Some(User("3", "Event Organizer", email, Organizer))
    else
      None
  }

  /** The greeting for a signed-in role. */
  function Welcome(role: Role): string
  {
    match role
    case Admin => "Welcome back, Admin!"
    case Client => "Welcome back!"
    case Organizer => "Welcome back, Organizer!"
  }

  /** The demo pairs and their users, and a near miss that is refused. */
  lemma AuthenticateExamples()
    ensures Authenticate("admin@example.com", "admin123") == Some(User("1", "Admin User", "admin@example.com", Admin))
    ensures Authenticate("client@example.com", "client123") == Some(User("2", "Client User", "client@example.com", Client))
    ensures Authenticate("organizer@example.com", "organizer123") == Some(User("3", "Event Organizer", "organizer@example.com", Organizer))
    ensures Authenticate("admin@example.com", "client123") == None
  {
  }

  // ---------------------------------------------------------------- register

  /** The registration checks in order: the first failure, or `None` when all pass. */
  function RegisterCheck(name: string, email: string, password: string, confirm: string): (r: Option<string>)
    ensures r == Some(FillMessage) <==> name == "" || email == "" || password == "" || confirm == ""
    ensures r == Some(MismatchMessage) <==> name != "" && email != "" && password != "" && confirm != "" && password != confirm
    ensures r == Some(ShortMessage) <==>
      name != "" && email != "" && password != "" && password == confirm && Text.Utf16Length(password) < MinPasswordLength
    ensures r.None? <==> name != "" && email != "" && password == confirm && Text.Utf16Length(password) >= MinPasswordLength
  {
    if name == "" || email == "" || password == "" || confirm == "" then Some(FillMessage)
    else if password != confirm then Some(MismatchMessage)
    else if Text.Utf16Length(password) < MinPasswordLength then Some(ShortMessage)
    else None
  }

  /**
   * A matching six-character password passes; five characters are too
   * short; three emoji pass, since each counts as two code units.
   */
  lemma RegisterCheckExamples()
    ensures RegisterCheck("Ada", "ada@example.com", "secret", "secret") == None
    ensures RegisterCheck("Ada", "ada@example.com", "short", "short") == Some(ShortMessage)
    ensures RegisterCheck("", "ada@example.com", "secret", "other") == Some(FillMessage)
    ensures RegisterCheck("Ada", "ada@example.com", "\U{1F600}\U{1F600}\U{1F600}", "\U{1F600}\U{1F600}\U{1F600}") == None
  {
    Text.Utf16LengthBmp("secret");
    Text.Utf16LengthBmp("short");
    Text.EmojiLength();
  }

  // ---------------------------------------------------------------- the form

  /** The values a login submit hands to its delayed step. */
  datatype Credentials = Credentials(email: string, password: string)

  /** The values a register submit hands to its delayed step. */
  datatype Registration = Registration(name: string, email: string, role: Role)

  class Form {
    var loginEmail: string
    var loginPassword: string
    var isLoggingIn: bool
    var pendingLogin: Option<Credentials>
    var registerName: string
    var registerEmail: string
    var registerPassword: string
    var registerConfirmPassword: string
    var userType: Role
    var isRegistering: bool
    var pendingRegister: Option<Registration>
    /** What storage holds under `user`. */
    var storedUser: Option<User>

    /** An attempt is in flight exactly while its delayed step is pending. */
    ghost predicate Valid()
      reads this
    {
      (isLoggingIn <==> pendingLogin.Some?) && (isRegistering <==> pendingRegister.Some?)
    }

    /** A fresh form over the given storage; the account type starts as client. */
    constructor (stored: Option<User>)
      ensures Valid()
      ensures loginEmail == "" && loginPassword == "" && !isLoggingIn
      ensures registerName == "" && registerEmail == "" && registerPassword == "" && registerConfirmPassword == ""
      ensures userType == Client && !isRegistering && storedUser == stored
    {
      loginEmail, loginPassword := "", "";
      isLoggingIn, pendingLogin := false, None;
      registerName, registerEmail, registerPassword, registerConfirmPassword := "", "", "", "";
      userType := Client;
      isRegistering, pendingRegister := false, None;
      storedUser := stored;
    }

    method SetLogin(email: string, password: string)
      requires Valid()
      modifies this
      ensures Valid()
      ensures loginEmail == email && loginPassword == password
      ensures isLoggingIn == old(isLoggingIn) && pendingLogin == old(pendingLogin) && storedUser == old(storedUser)
    {
      loginEmail, loginPassword := email, password;
    }

    /** `setUserType`, from a select that offers the client and organizer types. */
    method SetUserType(t: Role)
      requires Valid() && t != Admin
      modifies this
      ensures Valid()
      ensures userType == t
      ensures isRegistering == old(isRegistering) && pendingRegister == old(pendingRegister) && storedUser == old(storedUser)
    {
      userType := t;
    }

    method SetRegister(name: string, email: string, password: string, confirm: string)
      requires Valid()
      modifies this
      ensures Valid()
      ensures registerName == name && registerEmail == email
      ensures registerPassword == password && registerConfirmPassword == confirm
      ensures userType == old(userType) && isRegistering == old(isRegistering)
      ensures pendingRegister == old(pendingRegister) && storedUser == old(storedUser)
    {
      registerName, registerEmail, registerPassword, registerConfirmPassword := name, email, password, confirm;
    }

    /**
     * `handleLogin` up to its delay. An empty field is reported and nothing
     * starts; otherwise the attempt is in flight with the entered values.
     * The button is disabled while an attempt is in flight.
     */
    method HandleLogin() returns (notice: Option<Notice>)
      requires Valid() && !isLoggingIn
      modifies this
      ensures Valid()
      ensures loginEmail == "" || loginPassword == "" ==>
        notice == Some(Error(FillMessage)) && !isLoggingIn && pendingLogin == None
      ensures loginEmail != "" && loginPassword != "" ==>
        notice == None && isLoggingIn && pendingLogin == Some(Credentials(loginEmail, loginPassword))
      ensures loginEmail == old(loginEmail) && loginPassword == old(loginPassword) && storedUser == old(storedUser)
      ensures isRegistering == old(isRegistering) && pendingRegister == old(pendingRegister)
    {
      if loginEmail == "" || loginPassword == "" {
        notice := Some(Error(FillMessage));
        return;
      }
      notice := None;
      isLoggingIn := true;
      pendingLogin := Some(Credentials(loginEmail, loginPassword));
    }

    /**
     * The delayed login step. A demo pair stores its user, greets the role
     * and yields the user for `onSuccess` and the dashboard redirect; any
     * other pair is refused and storage is untouched. Either way the attempt
     * is over.
     */
    method CompleteLogin() returns (notice: Notice, signedIn: Option<User>)
      requires Valid() && isLoggingIn
      modifies this
      ensures Valid()
      ensures !isLoggingIn && pendingLogin == None
      ensures var c := old(pendingLogin).value; signedIn == Authenticate(c.email, c.password)
      ensures signedIn.Some? ==> storedUser == signedIn && notice == Success(Welcome(signedIn.value.role))
      ensures signedIn.None? ==> storedUser == old(storedUser) && notice == Error(InvalidMessage)
      ensures loginEmail == old(loginEmail) && loginPassword == old(loginPassword)
      ensures isRegistering == old(isRegistering) && pendingRegister == old(pendingRegister)
    {
      var c := pendingLogin.value;
      signedIn := Authenticate(c.email, c.password);
      if signedIn.Some? {
        storedUser := signedIn;
        notice := Success(Welcome(signedIn.value.role));
      } else {
        notice := Error(InvalidMessage);
      }
      isLoggingIn := false;
      pendingLogin := None;
    }

    /**
     * `handleRegister` up to its delay: the first failed check is reported
     * and nothing starts; otherwise the attempt is in flight with the name,
     * email and account type as entered.
     */
    method HandleRegister() returns (notice: Option<Notice>)
      requires Valid() && !isRegistering
      modifies this
      ensures Valid()
      ensures var check := RegisterCheck(registerName, registerEmail, registerPassword, registerConfirmPassword);
        && (check.Some? ==> notice == Some(Error(check.value)) && !isRegistering && pendingRegister == None)
        && (check.None? ==> notice == None && isRegistering && pendingRegister == Some(Registration(registerName, registerEmail, userType)))
      ensures registerName == old(registerName) && registerEmail == old(registerEmail)
      ensures registerPassword == old(registerPassword) && registerConfirmPassword == old(registerConfirmPassword)
      ensures userType == old(userType) && storedUser == old(storedUser)
      ensures isLoggingIn == old(isLoggingIn) && pendingLogin == old(pendingLogin)
    {
      var check := RegisterCheck(registerName, registerEmail, registerPassword, registerConfirmPassword);
      if check.Some? {
        notice := Some(Error(check.value));
        return;
      }
      notice := None;
      isRegistering := true;
      pendingRegister := Some(Registration(registerName, registerEmail, userType));
    }

    /**
     * The delayed register step: the new user, under the random id the
     * page generates, is stored and yielded for `onSuccess` and the redirect.
     */
    method CompleteRegister(randomId: string) returns (notice: Notice, user: User)
      requires Valid() && isRegistering
      modifies this
      ensures Valid()
      ensures !isRegistering && pendingRegister == None
      ensures var p := old(pendingRegister).value; user == User(randomId, p.name, p.email, p.role)
      ensures storedUser == Some(user) && notice == Success(RegisteredMessage)
      ensures registerName == old(registerName) && registerEmail == old(registerEmail) && userType == old(userType)
      ensures isLoggingIn == old(isLoggingIn) && pendingLogin == old(pendingLogin)
    {
      var p := pendingRegister.value;
      user := User(randomId, p.name, p.email, p.role);
      storedUser := Some(user);
      notice := Success(RegisteredMessage);
      isRegistering := false;
      pendingRegister := None;
    }
  }

  /** Editing the fields during the delay does not change whom the attempt signs in. */
  method LoginWalkthrough()
  {
    var f := new Form(None);
    var n := f.HandleLogin();
    assert n == Some(Error(FillMessage)) && !f.isLoggingIn;
    f.SetLogin("client@example.com", "client123");
    n := f.HandleLogin();
    assert f.isLoggingIn;
    f.SetLogin("someone@example.com", "guess");
    var notice, user := f.CompleteLogin();
    AuthenticateExamples();
    assert user == Some(User("2", "Client User", "client@example.com", Client));
    assert f.storedUser == user && !f.isLoggingIn;
  }

  /** A registration keeps the default client type unless it is changed. */
  method RegisterWalkthrough()
  {
    var f := new Form(None);
    f.SetRegister("Ada", "ada@example.com", "secret", "secret");
    RegisterCheckExamples();
    var n := f.HandleRegister();
    assert n == None && f.isRegistering;
    var notice, user := f.CompleteRegister("k3x9q1z0a");
    assert user.role == Client && user.name == "Ada" && f.storedUser == Some(user);
  }
}
