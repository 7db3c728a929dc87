/** `registerUser` and its two checks: the password rules and the e-mail pattern. */
module Register {
  import opened Wrappers
  import opened Schema
  import opened Text
  import opened Seqs
  import opened Zod
  import Constants

  const PASSWORD_LENGTH_MESSAGE := "Password must be at least 8 characters"
  const PASSWORD_UPPER_MESSAGE := "Password must contain at least one uppercase letter"
  const PASSWORD_DIGIT_MESSAGE := "Password must contain at least one number"
  const INVALID_EMAIL_MESSAGE := "Invalid email format"
  const EMAIL_TAKEN_MESSAGE := "Email already registered"

  /** Whether some character of `s` satisfies `p` (a regular expression `test` with a
      single character class). */
  function Contains(p: char -> bool, s: string): (b: bool)
    ensures b <==> exists i :: 0 <= i < |s| && p(s[i])
  {
    if s == [] then false
    else if p(s[0]) then true
    else
      var b := Contains(p, s[1..]);
      assert forall i :: 1 <= i < |s| ==> s[i] == s[1..][i - 1];
      b
  }

  /** `validatePassword`: the message of the first rule the password breaks, in the order
      length, upper-case letter, digit; nothing when it keeps all three. */
  function ValidatePassword(password: string): (r: Option<string>)
    ensures r.None? <==>
      JsLength(password) >= Constants.MIN_PASSWORD_LENGTH
      && (exists i :: 0 <= i < |password| && IsUpper(password[i]))
      && (exists i :: 0 <= i < |password| && IsDigit(password[i]))
    ensures JsLength(password) < Constants.MIN_PASSWORD_LENGTH ==> r == Some(PASSWORD_LENGTH_MESSAGE)
    ensures (JsLength(password) >= Constants.MIN_PASSWORD_LENGTH
             && forall i :: 0 <= i < |password| ==> !IsUpper(password[i]))
      ==> r == Some(PASSWORD_UPPER_MESSAGE)
    ensures (JsLength(password) >= Constants.MIN_PASSWORD_LENGTH
             && (exists i :: 0 <= i < |password| && IsUpper(password[i]))
             && forall i :: 0 <= i < |password| ==> !IsDigit(password[i]))
      ==> r == Some(PASSWORD_DIGIT_MESSAGE)
  {
    if JsLength(password) < Constants.MIN_PASSWORD_LENGTH then Some(PASSWORD_LENGTH_MESSAGE)
    else if !Contains(IsUpper, password) then Some(PASSWORD_UPPER_MESSAGE)
    else if !Contains(IsDigit, password) then Some(PASSWORD_DIGIT_MESSAGE)
    else None
  }

  /** `[^\s@]`. */
  predicate EmailChar(c: char) {
    !IsSpace(c) && c != '@'
  }

  predicate EmailChars(s: string) {
    forall k :: 0 <= k < |s| ==> EmailChar(s[k])
  }

  /** `/^[^\s@]+@[^\s@]+\.[^\s@]+$/`: a non-empty local part, '@', a non-empty run, '.',
      and a non-empty run, none of the three holding whitespace or '@'. */
  predicate ValidateEmail(email: string) {
    exists i, j :: 0 < i < j < |email| - 1 && i + 1 < j
      && email[i] == '@' && email[j] == '.'
      && EmailChars(email[..i]) && EmailChars(email[i + 1..j]) && EmailChars(email[j + 1..])
  }

  /** The shape the pattern describes, said field by field: no whitespace, exactly one
      '@', not first, and after it a '.' that is neither the domain's first nor its last
      character. */
  predicate EmailShape(email: string) {
    (forall k :: 0 <= k < |email| ==> !IsSpace(email[k]))
    && exists i :: (0 < i < |email| && email[i] == '@'
                    && (forall k :: 0 <= k < |email| && k != i ==> email[k] != '@')
                    && exists j :: i + 1 < j < |email| - 1 && email[j] == '.')
  }

  lemma EmailPatternGivesShape(email: string, i: nat, j: nat)
    requires 0 < i < j < |email| - 1 && i + 1 < j
    requires email[i] == '@' && email[j] == '.'
    requires EmailChars(email[..i]) && EmailChars(email[i + 1..j]) && EmailChars(email[j + 1..])
    ensures EmailShape(email)
  {
    forall k | 0 <= k < |email| && k != i ensures EmailChar(email[k]) || k == j {
      if k < i {
        assert email[k] == email[..i][k];
      } else if i < k < j {
        assert email[k] == email[i + 1..j][k - i - 1];
      } else if j < k {
        assert email[k] == email[j + 1..][k - j - 1];
      }
    }
  }

  lemma EmailShapeGivesPattern(email: string, i: nat, j: nat)
    requires forall k :: 0 <= k < |email| ==> !IsSpace(email[k])
    requires 0 < i < |email| && email[i] == '@'
    requires forall k :: 0 <= k < |email| && k != i ==> email[k] != '@'
    requires i + 1 < j < |email| - 1 && email[j] == '.'
    ensures ValidateEmail(email)
  {
    assert forall k :: 0 <= k < |email| && k != i && k != j ==> EmailChar(email[k]);
    assert EmailChars(email[..i]);
    assert EmailChars(email[i + 1..j]);
    assert EmailChars(email[j + 1..]);
  }

  /** The pattern accepts exactly the addresses of that shape. */
  lemma EmailPatternIsShape(email: string)
    ensures ValidateEmail(email) <==> EmailShape(email)
  {
    if ValidateEmail(email) {
      var i, j :| 0 < i < j < |email| - 1 && i + 1 < j
        && email[i] == '@' && email[j] == '.'
        && EmailChars(email[..i]) && EmailChars(email[i + 1..j]) && EmailChars(email[j + 1..]);
      EmailPatternGivesShape(email, i, j);
    }
    if EmailShape(email) {
      var i :| 0 < i < |email| && email[i] == '@'
        && (forall k :: 0 <= k < |email| && k != i ==> email[k] != '@')
        && exists j :: i + 1 < j < |email| - 1 && email[j] == '.';
      var j :| i + 1 < j < |email| - 1 && email[j] == '.';
      EmailShapeGivesPattern(email, i, j);
    }
  }

  /** An address with no '@' at all never passes. */
  lemma NoAtNoEmail(email: string)
    requires forall k :: 0 <= k < |email| ==> email[k] != '@'
    ensures !ValidateEmail(email)
  {
    EmailPatternIsShape(email);
  }

  /** What a successful registration reports. */
  datatype Registered = Registered(id: string, role: Role)

  function EmailIs(email: string): UserRecord -> bool {
    (u: UserRecord) => u.email == email
  }

  /** The role of the next user as evidently intended: admin while the table is empty,
      user afterwards. The registration below uses this rule. */
  function FirstUserRole(users: seq<UserRecord>): (role: Role)
    ensures role == Admin <==> |users| == 0
  {
    if |users| == 0 then Admin else User
  }

  /** The value a database driver hands back for `count(*)`: a JavaScript number, or the
      decimal text of a PostgreSQL `bigint`, which is what the postgres-js driver gives. */
  datatype CountValue = CountNumber(n: nat) | CountText(digits: string)

  /** The count as the postgres-js driver returns it: `count(*)` is a `bigint`, read as
      text. */
  function DriverCount(users: seq<UserRecord>): (c: CountValue)
    ensures c.CountText? && c.digits == NatToString(|users|)
  {
    CountText(NatToString(|users|))
  }

  /** `(count?.count ?? 0) === 0 ? 'admin' : 'user'` as written: strict equality with the
      number 0 holds only for a number, never for text. */
  function RoleFromCount(count: CountValue): (role: Role)
    ensures role == Admin <==> count == CountNumber(0)
  {
    if count == CountNumber(0) then Admin else User
  }

  /** The role test as written, on the postgres-js driver: even the very first user, on an
      empty table, is given the role user, because the count is the text "0". */
  lemma FirstUserRoleAsWritten(users: seq<UserRecord>)
    ensures RoleFromCount(DriverCount(users)) == User
    ensures users == [] ==> RoleFromCount(DriverCount(users)) != FirstUserRole(users)
  {
  }

  /** The `users.email` unique constraint. */
  predicate EmailsUnique(users: seq<UserRecord>) {
    forall i, j :: 0 <= i < j < |users| ==> users[i].email != users[j].email
  }

  /** An insert whose e-mail no row holds keeps the e-mails unique. */
  lemma RegistrationKeepsEmailsUnique(users: seq<UserRecord>, u: UserRecord)
    requires EmailsUnique(users)
    requires First(EmailIs(u.email), users).None?
    ensures EmailsUnique(users + [u])
  {
    forall i | 0 <= i < |users| ensures users[i].email != u.email {
      assert users[i] in users;
      assert !EmailIs(u.email)(users[i]);
    }
  }

  /** `registerUser`. The e-mail is checked first, then the password; inside the
      transaction an e-mail already on file is refused, and otherwise one row is inserted
      whose role is admin exactly when the table was empty. `passwordHash` stands for
      `Bun.password.hash(password)`, `id` for the fresh UUID and `now` for the time. */
  method RegisterUser(db: Database, name: string, email: string, password: string,
                      passwordHash: string, id: string, now: int)
    returns (r: ActionResult<Registered>)
    modifies db`users
    ensures !ValidateEmail(email) ==> r == Err(INVALID_EMAIL_MESSAGE) && db.users == old(db.users)
    ensures ValidateEmail(email) && ValidatePassword(password).Some? ==>
      r == Err(ValidatePassword(password).value) && db.users == old(db.users)
    ensures (ValidateEmail(email) && ValidatePassword(password).None?
             && First(EmailIs(email), old(db.users)).Some?)
      ==> r == Err(EMAIL_TAKEN_MESSAGE) && db.users == old(db.users)
    ensures r.Ok? <==>
      ValidateEmail(email) && ValidatePassword(password).None? && First(EmailIs(email), old(db.users)).None?
    ensures r.Ok? ==>
      r.data == Registered(id, FirstUserRole(old(db.users)))
      && db.users == old(db.users) + [UserRecord(id, Some(name), email, None, Some(passwordHash),
                                                 FirstUserRole(old(db.users)), now, now)]
  {
    if !ValidateEmail(email) {
      return Err(INVALID_EMAIL_MESSAGE);
    }
    var pwError := ValidatePassword(password);
    if pwError.Some? {
      return Err(pwError.value);
    }
    var existing := First(EmailIs(email), db.users);
    if existing.Some? {
      return Err(EMAIL_TAKEN_MESSAGE);
    }
    var role := if |db.users| == 0 then Admin else User;
    db.users := db.users + [UserRecord(id, Some(name), email, None, Some(passwordHash), role, now, now)];
    r := Ok(Registered(id, role));
  }
}
