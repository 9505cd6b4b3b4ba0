/** The account controller (project-one/src/controllers/auth.ts): sign-in
    and sign-up guards, the profile update that issues an email
    verification code, finishing onboarding, verifying the code and
    re-sending it at most once a minute. Times are milliseconds; password
    hashing is left to an oracle. */
module Auth {
  import opened Common
  import opened Store

  // ---- SignIn, SignUp ----

  const MissingFields := "Please provide all fields"
  const InvalidCredentials := "The provided credentials are invalid"
  const UsernameTaken := "A user with this username already exists"

  predicate LogsInAs(d: Doc<User>, login: string) {
    d.data.username == login || d.data.email == Some(login)
  }

  /** `users[k]` is the first account in collection order that `login` names. */
  predicate FirstLoginAt(users: seq<Doc<User>>, login: string, k: nat) {
    k < |users| && LogsInAs(users[k], login) && forall j :: 0 <= j < k ==> !LogsInAs(users[j], login)
  }

  /** The first account whose username, or whose email, is `login`
      (`findOne` with `$or`, in collection order). */
  function FindLogin(users: seq<Doc<User>>, login: string): (r: Option<Doc<User>>)
    ensures r.Some? ==> r.value in users && (r.value.data.username == login || r.value.data.email == Some(login))
    ensures r.Some? ==> exists k: nat :: FirstLoginAt(users, login, k) && users[k] == r.value
    ensures r.None? ==> forall d :: d in users ==> d.data.username != login && d.data.email != Some(login)
  {
    if |users| == 0 then None
    else if LogsInAs(users[0], login) then
      assert FirstLoginAt(users, login, 0);
      Some(users[0])
    else
      assert users == [users[0]] + users[1..];
      var r := FindLogin(users[1..], login);
      if r.Some? then
        var k: nat :| FirstLoginAt(users[1..], login, k) && users[1..][k] == r.value;
        assert FirstLoginAt(users, login, k + 1) by {
          forall j | 0 <= j < k + 1 ensures !LogsInAs(users[j], login) {
            if j > 0 {
              assert users[j] == users[1..][j - 1];
            }
          }
        }
        r
      else r
  }

  /** `SignIn`; `passwordMatches(id)` is what the hash comparison answers
      for the submitted password against the stored hash of account `id`.
      The answer is the signed-in account's id. */
  function SignIn(users: seq<Doc<User>>, login: string, password: string, passwordMatches: Id -> bool)
    : (r: Reply<Id>)
    ensures r.Ok? <==> login != "" && password != "" && FindLogin(users, login).Some?
                       && passwordMatches(FindLogin(users, login).value.id)
    ensures r.Ok? ==> r.value == FindLogin(users, login).value.id
    ensures (login == "" || password == "") ==> r == Err(400, MissingFields)
  {
    if login == "" || password == "" then Err(400, MissingFields)
    else match FindLogin(users, login)
      case None => Err(400, InvalidCredentials)
      case Some(d) => if !passwordMatches(d.id) then Err(400, InvalidCredentials) else Ok(d.id)
  }

  /** An unknown login and a wrong password are answered alike, so the
      reply does not reveal whether an account exists. */
  lemma SignInDoesNotRevealAccounts(users: seq<Doc<User>>, login: string, password: string, passwordMatches: Id -> bool)
    requires login != "" && password != ""
    requires SignIn(users, login, password, passwordMatches).Err?
    ensures SignIn(users, login, password, passwordMatches) == Err(400, InvalidCredentials)
    ensures SignIn([], login, password, passwordMatches) == Err(400, InvalidCredentials)
  {
  }

  predicate UsernamesUnique(users: seq<Doc<User>>) {
    forall i, j :: 0 <= i < j < |users| ==> users[i].data.username != users[j].data.username
  }

  predicate UsernameInUse(users: seq<Doc<User>>, username: string) {
    exists i :: 0 <= i < |users| && users[i].data.username == username
  }

  /** The account `User.create` saves, with the schema's defaults. */
  function NewUser(name: string, username: string): User {
    User(name, username, None, None, true, false, None, None)
  }

  /** What a successful sign-up answers: status 201 and the new account's id. */
  datatype SignedUp = SignedUp(status: nat, user: Id)

  /** The guards of `SignUp`. */
  function SignUpCheck(users: seq<Doc<User>>, name: string, username: string, password: string): (r: Reply<()>)
    ensures r.Ok? <==> name != "" && username != "" && password != "" && !UsernameInUse(users, username)
    ensures r.Err? ==> r.status == 400
  {
    if name == "" || username == "" || password == "" then Err(400, MissingFields)
    else if UsernameInUse(users, username) then Err(400, UsernameTaken)
    else Ok(())
  }

  method SignUp(db: Database, name: string, username: string, password: string, newId: Id) returns (r: Reply<SignedUp>)
    requires newId !in Ids(db.users)
    modifies db`users
    ensures var c := SignUpCheck(old(db.users), name, username, password);
            if c.Err? then
              r == Refuse(c) && db.users == old(db.users)
            else
              r == Ok(SignedUp(201, newId)) && db.users == old(db.users) + [Doc(newId, NewUser(name, username))]
  {
    var c := SignUpCheck(db.users, name, username, password);
    if c.Err? {
      return Refuse(c);
    }
    db.users := db.users + [Doc(newId, NewUser(name, username))];
    r := Ok(SignedUp(201, newId));
  }

  /** Sign-up keeps usernames unique, and the new account starts in
      onboarding with an unverified email. */
  lemma {:induction false} SignUpKeepsUsernamesUnique(users: seq<Doc<User>>, name: string, username: string,
                                                      password: string, newId: Id)
    requires UsernamesUnique(users) && SignUpCheck(users, name, username, password).Ok?
    ensures UsernamesUnique(users + [Doc(newId, NewUser(name, username))])
    ensures NewUser(name, username).onBoarding && !NewUser(name, username).isEmailVerified
  {
    var after := users + [Doc(newId, NewUser(name, username))];
    forall i, j | 0 <= i < j < |after| ensures after[i].data.username != after[j].data.username {
      assert after[i] == users[i];
      if j < |users| {
        assert after[j] == users[j];
      }
    }
  }

  // ---- verification codes ----

  /** A code lives for one minute. */
  const CodeLifetime := 60000

  /** `generateCode`, with the random draw as a parameter: the code, as the
      string stored, and its expiry. */
  function IssueCode(u: User, code: nat, now: int): (v: User)
    requires 100000 <= code <= 999999
    ensures v.verifiedToken == Some(NatToString(code)) && v.tokenExpires == Some(now + CodeLifetime)
    ensures |v.verifiedToken.value| == 6
    ensures v.(verifiedToken := u.verifiedToken, tokenExpires := u.tokenExpires) == u
  {
    SixDigits(code);
    u.(verifiedToken := Some(NatToString(code)), tokenExpires := Some(now + CodeLifetime))
  }

  lemma {:induction false} SixDigits(code: nat)
    requires 100000 <= code <= 999999
    ensures |NatToString(code)| == 6
  {
    var n1 := code / 10;
    var n2 := n1 / 10;
    var n3 := n2 / 10;
    var n4 := n3 / 10;
    var n5 := n4 / 10;
    assert 1 <= n5 < 10 && n4 >= 10 && n3 >= 10 && n2 >= 10 && n1 >= 10;
    assert |NatToString(n5)| == 1;
    assert |NatToString(n4)| == 2;
    assert |NatToString(n3)| == 3;
    assert |NatToString(n2)| == 4;
    assert |NatToString(n1)| == 5;
  }

  // ---- UpdateUserInfo ----

  const NameAndEmailRequired := "Name and email are required"
  const EmailTaken := "The email already associated with an account"

  predicate EmailInUse(users: seq<Doc<User>>, email: string) {
    exists i :: 0 <= i < |users| && users[i].data.email == Some(email)
  }

  /** `UpdateUserInfo` on the caller's account `u`: both fields are written
      as given, and a fresh code is issued. Any account already holding the
      email, the caller's own included, makes it refuse. */
  function UpdateUserInfo(users: seq<Doc<User>>, u: User, name: string, email: string, code: nat, now: int)
    : (r: Reply<User>)
    requires 100000 <= code <= 999999
    ensures r.Ok? <==> (name != "" || email != "") && !EmailInUse(users, email)
    ensures r.Ok? ==>
              r.value == IssueCode(u, code, now).(name := name, email := Some(email))
    ensures name == "" && email == "" ==> r == Err(400, NameAndEmailRequired)
  {
    if name == "" && email == "" then Err(400, NameAndEmailRequired)
    else if EmailInUse(users, email) then Err(400, EmailTaken)
    else Ok(IssueCode(u, code, now).(name := name, email := Some(email)))
  }

  /** The email check does not exempt the caller: submitting the address
      the account already has is refused like anyone else's. */
  lemma OwnEmailRefused(users: seq<Doc<User>>, caller: Id, name: string, code: nat, now: int)
    requires 100000 <= code <= 999999
    requires Find(users, caller).Some? && Filled(Find(users, caller).value.email)
    ensures UpdateUserInfo(users, Find(users, caller).value, name, Find(users, caller).value.email.value, code, now)
              == Err(400, EmailTaken)
  {
    var k :| 0 <= k < |users| && users[k] == Doc(caller, Find(users, caller).value);
  }

  // ---- FinishOnboarding ----

  const AlreadyOnboarded := "You've already completed your profile"
  const AvatarAndEmailFirst := "Please add your avatar and email first"

  predicate Filled(field: Option<string>) {
    field.Some? && field.value != ""
  }

  function FinishOnboarding(u: User): (r: Reply<User>)
    ensures r.Ok? <==> u.onBoarding && Filled(u.avatar) && Filled(u.email)
    ensures r.Ok? ==> r.value == u.(onBoarding := false)
    ensures !u.onBoarding ==> r == Err(400, AlreadyOnboarded)
  {
    if !u.onBoarding then Err(400, AlreadyOnboarded)
    else if !Filled(u.avatar) || !Filled(u.email) then Err(400, AvatarAndEmailFirst)
    else Ok(u.(onBoarding := false))
  }

  /** Onboarding finishes once: a second call is refused and leaves the account as it was. */
  lemma OnboardingOnce(u: User)
    requires FinishOnboarding(u).Ok?
    ensures FinishOnboarding(FinishOnboarding(u).value) == Err(400, AlreadyOnboarded)
  {
  }

  // ---- VerifyCode ----

  const CodeRequired := "Code is required"
  const InvalidCode := "Invalid code"
  const CodeExpired := "Code has expired"

  /** `expires < now`, where an expiry that was cleared compares as 0. */
  predicate Expired(expires: Option<int>, now: int) {
    (if expires.Some? then expires.value else 0) < now
  }

  /** `VerifyCode`: the code is checked first, the expiry only after. */
  function VerifyCode(u: User, code: string, now: int): (r: Reply<User>)
    ensures r.Ok? <==> code != "" && u.verifiedToken == Some(code) && !Expired(u.tokenExpires, now)
    ensures r.Ok? ==> r.value == u.(isEmailVerified := true, verifiedToken := None, tokenExpires := None)
    ensures code != "" && u.verifiedToken != Some(code) ==> r == Err(400, InvalidCode)
    ensures (code != "" && u.verifiedToken == Some(code) && Expired(u.tokenExpires, now)) ==> r == Err(400, CodeExpired)
  {
    if code == "" then Err(400, CodeRequired)
    else if u.verifiedToken != Some(code) then Err(400, InvalidCode)
    else if Expired(u.tokenExpires, now) then Err(400, CodeExpired)
    else Ok(u.(isEmailVerified := true, verifiedToken := None, tokenExpires := None))
  }

  /** A freshly issued code verifies exactly until its minute is over; any
      other code is refused as invalid whatever the time. */
  lemma IssuedCodeVerifies(u: User, code: nat, issuedAt: int, now: int, other: string)
    requires 100000 <= code <= 999999
    requires other != NatToString(code) && other != ""
    ensures VerifyCode(IssueCode(u, code, issuedAt), NatToString(code), now).Ok? <==> now <= issuedAt + CodeLifetime
    ensures VerifyCode(IssueCode(u, code, issuedAt), other, now) == Err(400, InvalidCode)
  {
    NatToStringParses(code);
  }

  /** A code cannot be used twice: after a successful verification every code is invalid. */
  lemma NoReplay(u: User, code: string, now: int, again: string, later: int)
    requires VerifyCode(u, code, now).Ok?
    requires again != ""
    ensures VerifyCode(VerifyCode(u, code, now).value, again, later) == Err(400, InvalidCode)
    ensures VerifyCode(u, code, now).value.isEmailVerified
  {
  }

  // ---- ResendCode ----

  const ResendTooSoon := "You can only resend the code once per minute"

  /** `ResendCode`: refused while the current code's expiry lies in the future. */
  function ResendCode(u: User, code: nat, now: int): (r: Reply<User>)
    requires 100000 <= code <= 999999
    ensures r.Err? <==> u.tokenExpires.Some? && u.tokenExpires.value > now
    ensures r.Err? ==> r == Err(400, ResendTooSoon)
    ensures r.Ok? ==> r.value == IssueCode(u, code, now)
  {
    if u.tokenExpires.Some? && u.tokenExpires.value > now then Err(400, ResendTooSoon)
    else Ok(IssueCode(u, code, now))
  }

  /** Within a minute of issuing a code another one cannot be requested;
      from the end of that minute on it can, and then the old code no
      longer verifies. */
  lemma ResendThrottled(u: User, code: nat, issuedAt: int, next: nat, now: int)
    requires 100000 <= code <= 999999 && 100000 <= next <= 999999
    requires next != code
    ensures ResendCode(IssueCode(u, code, issuedAt), next, now).Err? <==> now < issuedAt + CodeLifetime
    ensures now >= issuedAt + CodeLifetime ==>
              VerifyCode(ResendCode(IssueCode(u, code, issuedAt), next, now).value, NatToString(code), now)
                == Err(400, InvalidCode)
  {
    NatToStringParses(code);
    NatToStringParses(next);
  }

  // ---- the handlers that save the caller's account ----

  /** Saves the caller's account after a pure step that answered `step`. */
  method SaveCaller(db: Database, caller: Id, step: Reply<User>, okText: string) returns (r: Reply<string>)
    modifies db`users
    ensures step.Err? ==> r == Refuse(step) && db.users == old(db.users)
    ensures step.Ok? ==> r == Ok(okText) && db.users == Replace(old(db.users), caller, step.value)
  {
    if step.Err? {
      return Refuse(step);
    }
    db.users := Replace(db.users, caller, step.value);
    r := Ok(okText);
  }

  method UpdateUserInfoHandler(db: Database, caller: Id, name: string, email: string, code: nat, now: int)
    returns (r: Reply<string>)
    requires Find(db.users, caller).Some?
    requires 100000 <= code <= 999999
    modifies db`users
    ensures var step := UpdateUserInfo(old(db.users), Find(old(db.users), caller).value, name, email, code, now);
            && (step.Err? ==> r == Refuse(step) && db.users == old(db.users))
            && (step.Ok? ==> r == Ok("User updated successfully") && db.users == Replace(old(db.users), caller, step.value))
  {
    var u := Find(db.users, caller).value;
    r := SaveCaller(db, caller, UpdateUserInfo(db.users, u, name, email, code, now), "User updated successfully");
  }

  method FinishOnboardingHandler(db: Database, caller: Id) returns (r: Reply<string>)
    requires Find(db.users, caller).Some?
    modifies db`users
    ensures var step := FinishOnboarding(Find(old(db.users), caller).value);
            && (step.Err? ==> r == Refuse(step) && db.users == old(db.users))
            && (step.Ok? ==> r == Ok("Onboarding completed successfully") && db.users == Replace(old(db.users), caller, step.value))
  {
    r := SaveCaller(db, caller, FinishOnboarding(Find(db.users, caller).value), "Onboarding completed successfully");
  }

  method VerifyCodeHandler(db: Database, caller: Id, code: string, now: int) returns (r: Reply<string>)
    requires Find(db.users, caller).Some?
    modifies db`users
    ensures var step := VerifyCode(Find(old(db.users), caller).value, code, now);
            && (step.Err? ==> r == Refuse(step) && db.users == old(db.users))
            && (step.Ok? ==> r == Ok("Email verified successfully") && db.users == Replace(old(db.users), caller, step.value))
  {
    r := SaveCaller(db, caller, VerifyCode(Find(db.users, caller).value, code, now), "Email verified successfully");
  }

  method ResendCodeHandler(db: Database, caller: Id, code: nat, now: int) returns (r: Reply<string>)
    requires Find(db.users, caller).Some?
    requires 100000 <= code <= 999999
    modifies db`users
    ensures var step := ResendCode(Find(old(db.users), caller).value, code, now);
            && (step.Err? ==> r == Refuse(step) && db.users == old(db.users))
            && (step.Ok? ==> r == Ok("Code resent successfully") && db.users == Replace(old(db.users), caller, step.value))
  {
    r := SaveCaller(db, caller, ResendCode(Find(db.users, caller).value, code, now), "Code resent successfully");
  }
}
