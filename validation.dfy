/** The client's form rules (chatapp/src/lib/validation.ts): each schema
    is the list of issues it reports for the given field values, every
    failed check in declaration order; a form is accepted when the list is
    empty. */
module Validation {
  import opened Common

  datatype Issue = Issue(path: string, message: string)

  /** One check: no issue when `ok`, else the message on that field. */
  function Check(ok: bool, path: string, message: string): (r: seq<Issue>)
    ensures r == [] <==> ok
  {
    if ok then [] else [Issue(path, message)]
  }

  /** Every issue in `issues` is on the field `path`. */
  predicate AllOn(issues: seq<Issue>, path: string) {
    forall k :: 0 <= k < |issues| ==> issues[k].path == path
  }

  // ---- character classes of the regular expressions ----

  predicate IsLower(c: char) { 'a' <= c <= 'z' }
  predicate IsUpper(c: char) { 'A' <= c <= 'Z' }
  /** `[a-zA-Z0-9_]`, the `\w` class. */
  predicate IsWordChar(c: char) { IsLower(c) || IsUpper(c) || IsDigit(c) || c == '_' }
  /** `[\W_]`: anything but a letter or a digit. */
  predicate IsSymbol(c: char) { !IsLower(c) && !IsUpper(c) && !IsDigit(c) }
  /** The characters `.` does not match. */
  predicate IsLineTerminator(c: char) { c == '\n' || c == '\r' || c == '\U{2028}' || c == '\U{2029}' }

  /** `/^[a-zA-Z0-9_]+$/`. */
  predicate WordOnly(s: string) {
    |s| >= 1 && forall i :: 0 <= i < |s| ==> IsWordChar(s[i])
  }

  /** `/^\d+$/`. */
  predicate DigitsOnly(s: string) {
    |s| >= 1 && AllDigits(s)
  }

  /** `/^(?=.*[a-z])(?=.*[A-Z])(?=.*\d)(?=.*[\W_]).{6,}$/`. */
  predicate StrongPassword(s: string) {
    && |s| >= 6
    && (forall i :: 0 <= i < |s| ==> !IsLineTerminator(s[i]))
    && (exists i :: 0 <= i < |s| && IsLower(s[i]))
    && (exists i :: 0 <= i < |s| && IsUpper(s[i]))
    && (exists i :: 0 <= i < |s| && IsDigit(s[i]))
    && (exists i :: 0 <= i < |s| && IsSymbol(s[i]))
  }

  // ---- signinSchema ----

  function SigninIssues(username: string, password: string): (r: seq<Issue>)
    ensures |r| <= 3
    ensures forall k :: 0 <= k < |r| ==> r[k].path in {"username", "password"}
    ensures username == "" ==> |r| >= 1 && r[0] == Issue("username", "Username or email is required")
  {
    Check(|username| >= 1, "username", "Username or email is required")
    + Check(|password| >= 1, "password", "Password is required")
    + Check(|password| >= 6, "password", "Password must be at least 6 characters")
  }

  /** Sign-in asks only for a login and a password of six characters or more. */
  lemma SigninAccepts(username: string, password: string)
    ensures SigninIssues(username, password) == [] <==> username != "" && |password| >= 6
  {
  }

  // ---- signupSchema ----

  function NameIssues(name: string): (r: seq<Issue>)
    ensures |r| <= 3 && AllOn(r, "name")
    ensures name == "" ==> |r| >= 1 && r[0] == Issue("name", "Name is required")
  {
    Check(|name| >= 1, "name", "Name is required")
    + Check(|name| >= 3, "name", "Name must be at least 3 characters")
    + Check(|name| <= 30, "name", "Name must be at most 30 characters")
  }

  function UsernameIssues(username: string): (r: seq<Issue>)
    ensures |r| <= 5 && AllOn(r, "username")
  {
    Check(|username| >= 1, "username", "Username is required")
    + Check(|username| >= 3, "username", "Username must be at least 3 characters")
    + Check(|username| <= 30, "username", "Username must be at most 30 characters")
    + Check(WordOnly(username), "username", "Username can only contain letters, numbers, and underscores")
    + Check(!DigitsOnly(username), "username", "Username cannot be only numbers")
  }

  /** The password rules shared by sign-up and reset. */
  function PasswordIssues(password: string): (r: seq<Issue>)
    ensures |r| <= 4 && AllOn(r, "password")
  {
    Check(|password| >= 1, "password", "Password is required")
    + Check(|password| >= 6, "password", "Password must be at least 6 characters")
    + Check(|password| <= 30, "password", "Password must be at most 30 characters")
    + Check(StrongPassword(password), "password",
            "Password must include uppercase, lowercase, number, and special character")
  }

  /** The password rules on their own: 6 to 30 characters, with the four
      character classes and no line break. */
  lemma PasswordAccepts(password: string)
    ensures PasswordIssues(password) == [] <==> 6 <= |password| <= 30 && StrongPassword(password)
  {
  }

  function SignupIssues(name: string, username: string, password: string): (r: seq<Issue>)
    ensures |r| <= 12
  {
    NameIssues(name) + UsernameIssues(username) + PasswordIssues(password)
  }

  /** The sign-up rules stated directly on the characters. */
  predicate SignupAcceptable(name: string, username: string, password: string) {
    && 3 <= |name| <= 30
    && 3 <= |username| <= 30
    && (forall i :: 0 <= i < |username| ==> IsWordChar(username[i]))
    && (exists i :: 0 <= i < |username| && !IsDigit(username[i]))
    && 6 <= |password| <= 30
    && (forall i :: 0 <= i < |password| ==> !IsLineTerminator(password[i]))
    && (exists i :: 0 <= i < |password| && IsLower(password[i]))
    && (exists i :: 0 <= i < |password| && IsUpper(password[i]))
    && (exists i :: 0 <= i < |password| && IsDigit(password[i]))
    && (exists i :: 0 <= i < |password| && IsSymbol(password[i]))
  }

  lemma SignupAccepts(name: string, username: string, password: string)
    ensures SignupIssues(name, username, password) == [] <==> SignupAcceptable(name, username, password)
  {
  }

  /** Every issue the sign-up form reports is on one of its three fields. */
  lemma SignupIssuePaths(name: string, username: string, password: string)
    ensures forall k :: 0 <= k < |SignupIssues(name, username, password)| ==>
              SignupIssues(name, username, password)[k].path in {"name", "username", "password"}
  {
    ConcatOnPaths(NameIssues(name), UsernameIssues(username), PasswordIssues(password), "name", "username", "password");
  }

  /** Issues on three fields in turn, one field per part. */
  lemma ConcatOnPaths(x: seq<Issue>, y: seq<Issue>, z: seq<Issue>, a: string, b: string, c: string)
    requires AllOn(x, a) && AllOn(y, b) && AllOn(z, c)
    ensures forall k :: 0 <= k < |x + y + z| ==> (x + y + z)[k].path in {a, b, c}
  {
    forall k | 0 <= k < |x + y + z| ensures (x + y + z)[k].path in {a, b, c} {
      if k < |x| {
        assert (x + y + z)[k] == x[k];
      } else if k < |x| + |y| {
        assert (x + y + z)[k] == y[k - |x|];
      } else {
        assert (x + y + z)[k] == z[k - |x| - |y|];
      }
    }
  }

  /** An accepted sign-up form also has an acceptable sign-in password, and
      passes the server's check that no field is empty. */
  lemma SignupImpliesSignin(name: string, username: string, password: string)
    requires SignupIssues(name, username, password) == []
    ensures SigninIssues(username, password) == []
    ensures name != "" && username != "" && password != ""
  {
  }

  /** An accepted username holds a letter or an underscore. */
  lemma {:induction false} UsernameHasNonDigit(username: string)
    requires UsernameIssues(username) == []
    ensures exists i :: 0 <= i < |username| && (IsLower(username[i]) || IsUpper(username[i]) || username[i] == '_')
  {
    assert !AllDigits(username);
    var i :| 0 <= i < |username| && !IsDigit(username[i]);
    assert IsWordChar(username[i]);
  }

  // ---- groupCreateSchema, groupUpdateSchema ----

  /** The size ceiling, three mebibytes; the refusal text speaks of 5MB. */
  const AvatarLimit := 3 * 1024 * 1024
  const AvatarTypes := ["image/jpeg", "image/png", "image/webp", "image/jpg"]

  datatype File = File(size: nat, mimetype: string)

  function GroupNameIssues(name: string, description: string): seq<Issue> {
    Check(|name| >= 1, "name", "Name is required")
    + Check(|name| <= 50, "name", "Name must be at most 50 characters")
    + Check(|description| >= 1, "description", "Description is required")
    + Check(|description| <= 90, "description", "Description must be at most 90 characters")
  }

  /** The avatar's three refinements; a missing file fails all three. */
  function AvatarIssues(avatar: Option<File>): seq<Issue> {
    Check(avatar.Some?, "avatar", "Avatar is required")
    + Check(avatar.Some? && avatar.value.size <= AvatarLimit, "avatar", "Avatar must be less than 5MB")
    + Check(avatar.Some? && avatar.value.mimetype in AvatarTypes, "avatar", "Only JPEG, PNG, or WEBP images are allowed")
  }

  function GroupCreateIssues(name: string, description: string, avatar: Option<File>): (r: seq<Issue>)
    ensures |r| <= 7
    ensures avatar.None? ==> |r| >= 3 && r[|r| - 3..] == AvatarIssues(None)
  {
    GroupNameIssues(name, description) + AvatarIssues(avatar)
  }

  function GroupUpdateIssues(name: string, description: string): (r: seq<Issue>)
    ensures |r| <= 4
    ensures forall k :: 0 <= k < |r| ==> r[k].path in {"name", "description"}
  {
    GroupNameIssues(name, description)
  }

  lemma GroupUpdateAccepts(name: string, description: string)
    ensures GroupUpdateIssues(name, description) == [] <==> 1 <= |name| <= 50 && 1 <= |description| <= 90
  {
  }

  lemma GroupCreateAccepts(name: string, description: string, avatar: Option<File>)
    ensures GroupCreateIssues(name, description, avatar) == [] <==>
              && 1 <= |name| <= 50 && 1 <= |description| <= 90
              && avatar.Some? && avatar.value.size <= AvatarLimit
              && avatar.value.mimetype in {"image/jpeg", "image/png", "image/webp", "image/jpg"}
  {
  }

  /** Creating asks everything updating asks, and a file besides; without a
      file all three avatar messages are reported. */
  lemma GroupCreateExtendsUpdate(name: string, description: string, avatar: Option<File>)
    ensures GroupCreateIssues(name, description, avatar) == [] ==> GroupUpdateIssues(name, description) == []
    ensures |AvatarIssues(None)| == 3
  {
  }

  // ---- resetPasswordSchema ----

  function ResetIssues(password: string, confirmPassword: string): (r: seq<Issue>)
    ensures |r| <= 6
    ensures password != confirmPassword ==> |r| >= 1 && r[|r| - 1] == Issue("confirmPassword", "Passwords do not match")
  {
    PasswordIssues(password)
    + Check(|confirmPassword| >= 1, "confirmPassword", "Confirm password is required")
    + Check(password == confirmPassword, "confirmPassword", "Passwords do not match")
  }

  /** The mismatch is reported, on the confirmation field, exactly when the two differ. */
  lemma ResetMismatch(password: string, confirmPassword: string)
    ensures (Issue("confirmPassword", "Passwords do not match") in ResetIssues(password, confirmPassword)) <==>
              password != confirmPassword
    ensures ResetIssues(password, confirmPassword) == [] <==>
              PasswordIssues(password) == [] && password == confirmPassword
  {
  }

  /** The reset form stated directly on the characters. */
  lemma ResetAccepts(password: string, confirmPassword: string)
    ensures ResetIssues(password, confirmPassword) == [] <==>
              6 <= |password| <= 30 && StrongPassword(password) && password == confirmPassword
  {
    ResetMismatch(password, confirmPassword);
    PasswordAccepts(password);
  }
}
