/**
 * The user schema: field rules as validity predicates, the setters and defaults applied
 * when a document is built, and the document object whose `pre('save')` hook replaces a
 * modified password by its hash.
 */
module UserModel {
  import opened Common
  import opened JsString

  datatype Role = Student | Coordinator | Admin

  /** The string stored for a role. */
  function RoleName(r: Role): string {
    match r
    case Student => "student"
    case Coordinator => "coordinator"
    case Admin => "admin"
  }

  /** The `enum` validator of the `role` path: only the three role names are accepted. */
  function ParseRole(s: string): (r: Option<Role>)
    ensures r.Some? <==> s == "student" || s == "coordinator" || s == "admin"
    ensures r.Some? ==> RoleName(r.value) == s
  {
    if s == "student" then Some(Student)
    else if s == "coordinator" then Some(Coordinator)
    else if s == "admin" then Some(Admin)
    else None
  }

  /** Parsing a role's name gives the role back. */
  lemma ParseRoleName(r: Role)
    ensures ParseRole(RoleName(r)) == Some(r)
  {
  }

  const DefaultRole: string := "student"
  const MinPasswordLength: nat := 8

  // ----- The `match` rule of the email path: /^\S+@\S+\.\S+$/ -----

  predicate NoSpace(s: string) {
    forall i :: 0 <= i < |s| ==> !IsSpace(s[i])
  }

  /** A run matched by `\S+`. */
  predicate NonSpaceRun(s: string) {
    |s| > 0 && NoSpace(s)
  }

  function EmailParts(a: string, b: string, c: string): string {
    a + "@" + b + "." + c
  }

  /** The language of the regular expression, read literally: a `\S+` run, an `@`,
      a `\S+` run, a `.`, and a final `\S+` run, anchored at both ends. */
  ghost predicate MatchesEmailRegex(s: string) {
    exists a, b, c :: EmailParts(a, b, c) == s && NonSpaceRun(a) && NonSpaceRun(b) && NonSpaceRun(c)
  }

  /** The same language by positions: no white space at all, an `@` with a character
      before it, and a later `.` with a character between them and one after it. */
  predicate EmailShape(s: string) {
    NoSpace(s) && exists i, j | 0 < i && i + 1 < j && j + 1 < |s| :: s[i] == '@' && s[j] == '.'
  }

  lemma EmailShapeIsRegex(s: string)
    ensures EmailShape(s) <==> MatchesEmailRegex(s)
  {
    if EmailShape(s) {
      var i, j :| 0 < i && i + 1 < j && j + 1 < |s| && s[i] == '@' && s[j] == '.';
      ShapeGivesParts(s, i, j);
    }
    if MatchesEmailRegex(s) {
      var a, b, c :| EmailParts(a, b, c) == s && NonSpaceRun(a) && NonSpaceRun(b) && NonSpaceRun(c);
      PartsGiveShape(a, b, c);
    }
  }

  lemma ShapeGivesParts(s: string, i: nat, j: nat)
    requires NoSpace(s) && 0 < i && i + 1 < j && j + 1 < |s| && s[i] == '@' && s[j] == '.'
    ensures MatchesEmailRegex(s)
  {
    var a, b, c := s[..i], s[i + 1..j], s[j + 1..];
    assert EmailParts(a, b, c) == s by {
      assert s == s[..i] + [s[i]] + s[i + 1..j] + [s[j]] + s[j + 1..];
    }
    assert NonSpaceRun(a) && NonSpaceRun(b) && NonSpaceRun(c);
  }

  lemma PartsGiveShape(a: string, b: string, c: string)
    requires NonSpaceRun(a) && NonSpaceRun(b) && NonSpaceRun(c)
    ensures EmailShape(EmailParts(a, b, c))
  {
    var s := EmailParts(a, b, c);
    var i, j := |a|, |a| + 1 + |b|;
    assert s[i] == '@' && s[j] == '.';
    forall k | 0 <= k < |s| ensures !IsSpace(s[k]) {
      if k < i {
        assert s[k] == a[k];
      } else if i < k < j {
        assert s[k] == b[k - i - 1];
      } else if j < k {
        assert s[k] == c[k - j - 1];
      }
    }
  }

  // ----- Setters, defaults and validators -----

  /** The `trim` and `lowercase` setters of the email path. */
  function NormalizeEmail(s: string): string {
    ToLower(Trim(s))
  }

  /** Applying the email setters twice is the same as once, so the value stored and the
      value a query is cast to agree. */
  lemma NormalizeEmailIdempotent(s: string)
    ensures NormalizeEmail(NormalizeEmail(s)) == NormalizeEmail(s)
  {
    var _, _ := TrimSpec(s);
    ToLowerKeepsTrimmed(Trim(s));
    TrimTrimmed(ToLower(Trim(s)));
  }

  /** The paths of a user document before it is saved (`undefined` is `None`). */
  datatype UserFields = UserFields(
    name: Option<string>,
    email: Option<string>,
    password: Option<string>,
    role: Option<string>,
    studentId: Option<string>)

  function TrimOption(o: Option<string>): Option<string> {
    if o.Some? then Some(Trim(o.value)) else None
  }

  /** What `new UserModel({...})` stores: name trimmed, email trimmed and lower-cased,
      an absent role replaced by the default; password and studentId as given. */
  function CastUser(f: UserFields): (c: UserFields)
    ensures c.role.Some? && (f.role.None? ==> c.role == Some(DefaultRole))
    ensures c.password == f.password
  {
    UserFields(
      TrimOption(f.name),
      if f.email.Some? then Some(NormalizeEmail(f.email.value)) else None,
      f.password,
      if f.role.Some? then f.role else Some(DefaultRole),
      f.studentId)
  }

  /** The setters are idempotent: re-casting a cast document changes nothing. */
  lemma CastUserIdempotent(f: UserFields)
    ensures CastUser(CastUser(f)) == CastUser(f)
  {
    if f.name.Some? {
      TrimIdempotent(f.name.value);
    }
    if f.email.Some? {
      NormalizeEmailIdempotent(f.email.value);
    }
  }

  /** The validators of the schema, on a cast document: name, email and password are
      required (an empty string fails `required`), the email must match the pattern,
      the password must have at least eight characters, and the role must be one of
      the enumeration (the enum validator lets an absent value through). */
  predicate UserFieldsValid(f: UserFields) {
    && Truthy(f.name)
    && Truthy(f.email) && EmailShape(f.email.value)
    && Truthy(f.password) && Utf16Length(f.password.value) >= MinPasswordLength
    && (f.role.Some? ==> ParseRole(f.role.value).Some?)
  }

  /** A stored user. `password` holds whatever the save hook left there. */
  datatype User = User(
    id: Id,
    name: string,
    email: string,
    password: string,
    role: Role,
    studentId: Option<string>,
    createdAt: int)

  /** What every stored user satisfies: a non-empty trimmed name, and an email that is
      a fixpoint of the setters (trimmed and lower-case) and has the required shape. */
  predicate UserRecordValid(u: User) {
    && u.name != "" && Trimmed(u.name)
    && u.email == NormalizeEmail(u.email) && EmailShape(u.email)
  }

  /** The record saved from a complete document. */
  function UserRecord(f: UserFields, id: Id, createdAt: int): User
    requires f.name.Some? && f.email.Some? && f.password.Some?
    requires f.role.Some? && ParseRole(f.role.value).Some?
  {
    User(id, f.name.value, f.email.value, f.password.value, ParseRole(f.role.value).value, f.studentId, createdAt)
  }

  /** A document that passed validation is saved as a valid record, whatever the hook
      did to its password. */
  lemma CastValidRecordValid(f: UserFields, hashed: string, id: Id, createdAt: int)
    requires UserFieldsValid(CastUser(f))
    ensures UserRecordValid(UserRecord(CastUser(f).(password := Some(hashed)), id, createdAt))
  {
    var _, _ := TrimSpec(f.name.value);
    NormalizeEmailIdempotent(f.email.value);
  }

  /**
   * A user document in memory. The paths can be reassigned; `passwordModified` is
   * Mongoose's `isModified('password')`.
   */
  class UserDocument {
    var name: Option<string>
    var email: Option<string>
    var password: Option<string>
    var role: Option<string>
    var studentId: Option<string>
    var passwordModified: bool

    function Fields(): UserFields
      reads this
    {
      UserFields(name, email, password, role, studentId)
    }

    /** `new UserModel(init)`: setters and defaults are applied, and a password given to
        a new document counts as modified. */
    constructor (init: UserFields)
      ensures Fields() == CastUser(init)
      ensures passwordModified == init.password.Some?
    {
      var c := CastUser(init);
      name, email, password, role, studentId := c.name, c.email, c.password, c.role, c.studentId;
      passwordModified := init.password.Some?;
    }

    /** The `pre('save')` hook: an unmodified password is left alone; a modified one is
        replaced by its hash. Hashing nothing makes bcrypt throw, which aborts the save. */
    method HashPasswordHook(hash: string -> string) returns (ok: bool)
      modifies this`password
      ensures ok <==> !(passwordModified && old(password).None?)
      ensures !passwordModified ==> password == old(password)
      ensures passwordModified && old(password).Some? ==> password == Some(hash(old(password).value))
      ensures passwordModified && old(password).None? ==> password == old(password)
    {
      if !passwordModified {
        return true;
      }
      if password.None? {
        return false;
      }
      password := Some(hash(password.value));
      ok := true;
    }
  }
}
