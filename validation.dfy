/** Request validation: the empty-body pre-check of `validate` and the zod
    schemas it runs, as the list of issues each schema reports. A string
    schema runs all its checks and reports every failing one; a missing or
    non-string value is a type issue that stops its object before any
    object-level refinement runs. Lengths are counted in UTF-16 code units,
    as JavaScript's `length` counts them. */
module Validation {
  import opened Types

  /** A JSON value as far as the schemas care: a string, or anything else
      (null, number, boolean, array, object). */
  datatype Json = JString(s: string) | JOther

  /** A parsed JSON object body. */
  type Body = map<string, Json>

  /** One issue of a failed parse, with the path it is reported on. Type and
      enum issues carry zod's own wording, which is not modelled. */
  datatype Issue =
    | InvalidType(path: string)
    | InvalidEnumValue(path: string)
    | Failed(path: string, message: string)

  /** What `validate` does with a request: pass it on, or answer 400. */
  datatype Verdict = Next | Reject(status: int, message: string, errors: seq<Issue>)

  const EmptyBodyMessage := "Request body is empty or invalid. Make sure Content-Type header is set to application/json"
  const BodyRequired := Failed("body", "Request body is required")
  const ValidationFailed := "Validation failed"

  /** JavaScript's `length`: characters beyond U+FFFF count twice. */
  function Utf16Length(s: string): (n: nat)
    ensures n >= |s|
  {
    if s == [] then 0
    else (if s[0] as int > 0xFFFF then 2 else 1) + Utf16Length(s[1..])
  }

  lemma {:induction false} Utf16LengthOfBmp(s: string)
    requires forall i :: 0 <= i < |s| ==> s[i] as int <= 0xFFFF
    ensures Utf16Length(s) == |s|
  {
    if s != [] {
      Utf16LengthOfBmp(s[1..]);
    }
  }

  predicate IsLower(c: char) { 'a' <= c <= 'z' }
  predicate IsUpper(c: char) { 'A' <= c <= 'Z' }
  predicate IsDigit(c: char) { '0' <= c <= '9' }
  predicate IsSpecial(c: char) { c in "@$!%*?&" }
  predicate InPasswordClass(c: char) { IsLower(c) || IsUpper(c) || IsDigit(c) || IsSpecial(c) }

  /** The characters `.` does not match. */
  predicate IsLineTerminator(c: char) {
    c == '\n' || c == '\r' || c == '\U{2028}' || c == '\U{2029}'
  }

  /** `(?=.*[class])` at the start of `s`: a character of the class occurs
      with no line terminator before it. */
  predicate LookaheadFinds(s: string, inClass: char -> bool) {
    exists i :: 0 <= i < |s| && inClass(s[i]) && forall j :: 0 <= j < i ==> !IsLineTerminator(s[j])
  }

  /** `/^(?=.*[a-z])(?=.*[A-Z])(?=.*\d)(?=.*[@$!%*?&])[A-Za-z\d@$!%*?&]{8,}$/`, read literally. */
  function MatchesStrengthPattern(s: string): (b: bool)
    ensures b ==> |s| >= 8 && forall i :: 0 <= i < |s| ==> !IsLineTerminator(s[i])
    ensures b ==> exists i :: 0 <= i < |s| && IsSpecial(s[i])
  {
    && LookaheadFinds(s, IsLower)
    && LookaheadFinds(s, IsUpper)
    && LookaheadFinds(s, IsDigit)
    && LookaheadFinds(s, IsSpecial)
    && |s| >= 8
    && forall i :: 0 <= i < |s| ==> InPasswordClass(s[i])
  }

  /** The strong-password rule in plain terms. */
  predicate StrongPassword(s: string) {
    && 8 <= |s| <= 128
    && (exists i :: 0 <= i < |s| && IsLower(s[i]))
    && (exists i :: 0 <= i < |s| && IsUpper(s[i]))
    && (exists i :: 0 <= i < |s| && IsDigit(s[i]))
    && (exists i :: 0 <= i < |s| && IsSpecial(s[i]))
    && forall i :: 0 <= i < |s| ==> InPasswordClass(s[i])
  }

  /** One check of a zod string schema. */
  datatype Check =
    | MinLength(n: nat, message: string)
    | MaxLength(n: nat, message: string)
    | StrengthPattern(message: string)
    | EmailFormat(message: string)

  /** Whether `s` passes `c`; the email format test is the parameter `isEmail`. */
  predicate Passes(c: Check, s: string, isEmail: string -> bool) {
    match c
    case MinLength(n, _) => Utf16Length(s) >= n
    case MaxLength(n, _) => Utf16Length(s) <= n
    case StrengthPattern(_) => MatchesStrengthPattern(s)
    case EmailFormat(_) => isEmail(s)
  }

  /** The issues of a string value: one per failing check, in check order. */
  function CheckIssues(path: string, checks: seq<Check>, s: string, isEmail: string -> bool): (r: seq<Issue>)
    ensures r == [] <==> forall i :: 0 <= i < |checks| ==> Passes(checks[i], s, isEmail)
    ensures |r| <= |checks|
  {
    if checks == [] then []
    else
      (if Passes(checks[0], s, isEmail) then [] else [Failed(path, checks[0].message)])
      + CheckIssues(path, checks[1..], s, isEmail)
  }

  /** A field of an object schema. */
  datatype Field =
    | StringField(key: string, checks: seq<Check>, optional: bool)
    | EnumField(key: string, options: seq<string>)

  /** The value has the field's type (a string, or absent when optional). */
  predicate TypeOk(body: Body, f: Field) {
    if f.key in body then body[f.key].JString? else f.StringField? && f.optional
  }

  function FieldIssues(body: Body, f: Field, isEmail: string -> bool): (r: seq<Issue>)
    ensures !TypeOk(body, f) ==> r == [InvalidType(f.key)]
  {
    if !TypeOk(body, f) then [InvalidType(f.key)]
    else if f.key !in body then []
    else match f
      case StringField(key, checks, _) => CheckIssues(key, checks, body[key].s, isEmail)
      case EnumField(key, options) => if body[key].s in options then [] else [InvalidEnumValue(key)]
  }

  /** The issues of every field, in the order the schema lists them. */
  function ObjectIssues(body: Body, fields: seq<Field>, isEmail: string -> bool): (r: seq<Issue>)
    ensures r == [] <==> forall i :: 0 <= i < |fields| ==> FieldIssues(body, fields[i], isEmail) == []
  {
    if fields == [] then []
    else FieldIssues(body, fields[0], isEmail) + ObjectIssues(body, fields[1..], isEmail)
  }

  /** The checks of `emailSchema` (its lower-casing and trimming change no verdict). */
  const EmailChecks: seq<Check> := [
    EmailFormat("Invalid email format"),
    MinLength(3, "Email must be at least 3 characters"),
    MaxLength(255, "Email must not exceed 255 characters")]

  const StrongPasswordChecks: seq<Check> := [
    MinLength(8, "Password must be at least 8 characters long"),
    MaxLength(128, "Password must not exceed 128 characters"),
    StrengthPattern("Password must contain at least one uppercase letter, one lowercase letter, one number, and one special character (@$!%*?&)")]

  const BasicPasswordChecks: seq<Check> := [
    MinLength(6, "Password must be at least 6 characters long"),
    MaxLength(128, "Password must not exceed 128 characters")]

  const LoginPasswordChecks: seq<Check> := [
    MinLength(1, "Password is required"),
    MaxLength(128, "Password too long")]

  const ChangePasswordRule := Failed("currentPassword", "Current password is required when changing password")

  datatype Schema =
    | RegisterSchema
    | RegisterSchemaBasic
    | LoginSchema
    | RefreshTokenSchema
    | UpdateRoleSchema
    | UpdateProfileSchema

  function Fields(schema: Schema): (fs: seq<Field>)
    ensures |fs| >= 1
    ensures forall i, j :: 0 <= i < j < |fs| ==> fs[i].key != fs[j].key
    ensures forall i :: 0 <= i < |fs| && fs[i].StringField? ==> (fs[i].optional <==> schema == UpdateProfileSchema)
    ensures forall i :: 0 <= i < |fs| ==> (fs[i].EnumField? <==> schema == UpdateRoleSchema)
  {
    match schema
    case RegisterSchema => [StringField("email", EmailChecks, false), StringField("password", StrongPasswordChecks, false)]
    case RegisterSchemaBasic => [StringField("email", EmailChecks, false), StringField("password", BasicPasswordChecks, false)]
    case LoginSchema => [StringField("email", EmailChecks, false), StringField("password", LoginPasswordChecks, false)]
    case RefreshTokenSchema => [StringField("refreshToken", [MinLength(1, "Refresh token is required")], false)]
    case UpdateRoleSchema => [EnumField("role", [UserRole, AdminRole])]
    case UpdateProfileSchema => [
      StringField("email", EmailChecks, true),
      StringField("currentPassword", [MinLength(1, "Current password is required")], true),
      StringField("newPassword", StrongPasswordChecks, true)]
  }

  /** JavaScript truthiness of an optional string field. */
  predicate Truthy(body: Body, key: string) {
    key in body && body[key].JString? && body[key].s != []
  }

  /** The object-level refinement of `updateProfileSchema`; it runs only when
      every field had the right type. */
  function RefineIssues(schema: Schema, body: Body): (r: seq<Issue>)
    ensures r == [] || r == [ChangePasswordRule]
    ensures r != [] ==> schema == UpdateProfileSchema && Truthy(body, "newPassword") && !Truthy(body, "currentPassword")
  {
    if schema == UpdateProfileSchema
       && (forall i :: 0 <= i < |Fields(schema)| ==> TypeOk(body, Fields(schema)[i]))
       && Truthy(body, "newPassword") && !Truthy(body, "currentPassword")
    then [ChangePasswordRule]
    else []
  }

  /** Every issue `schema.parse(body)` reports. */
  function SchemaIssues(schema: Schema, body: Body, isEmail: string -> bool): (r: seq<Issue>)
    ensures schema != UpdateProfileSchema ==> r == ObjectIssues(body, Fields(schema), isEmail)
    ensures r == [] <==>
      (forall i :: 0 <= i < |Fields(schema)| ==> FieldIssues(body, Fields(schema)[i], isEmail) == [])
      && RefineIssues(schema, body) == []
  {
    ObjectIssues(body, Fields(schema), isEmail) + RefineIssues(schema, body)
  }

  /** `validate(schema)`: a missing or key-less body is refused before the
      schema runs; otherwise the request passes iff the schema reports nothing.
      The parse result is discarded, so the handler sees the body as sent. */
  function Validate(schema: Schema, body: Option<Body>, isEmail: string -> bool): (r: Verdict)
    ensures body.None? || body.value == map[] ==> r == Reject(400, EmptyBodyMessage, [BodyRequired])
    ensures body.Some? && body.value != map[] ==>
      (r == Next <==> SchemaIssues(schema, body.value, isEmail) == [])
    ensures r.Reject? ==> r.status == 400 && r.errors != []
  {
    if body.None? || |body.value| == 0 then Reject(400, EmptyBodyMessage, [BodyRequired])
    else
      var issues := SchemaIssues(schema, body.value, isEmail);
      if issues == [] then Next else Reject(400, ValidationFailed, issues)
  }

  /** The literal reading of the strength pattern, with the length checks,
      is the plain strong-password rule. */
  lemma StrongPasswordChecksIff(s: string, isEmail: string -> bool)
    ensures CheckIssues("password", StrongPasswordChecks, s, isEmail) == [] <==> StrongPassword(s)
  {
    var checks := StrongPasswordChecks;
    if forall i :: 0 <= i < |s| ==> InPasswordClass(s[i]) {
      Utf16LengthOfBmp(s);
      assert forall j :: 0 <= j < |s| ==> !IsLineTerminator(s[j]);
      LookaheadIffOccurs(s, IsLower);
      LookaheadIffOccurs(s, IsUpper);
      LookaheadIffOccurs(s, IsDigit);
      LookaheadIffOccurs(s, IsSpecial);
    }
    assert Passes(checks[2], s, isEmail) == MatchesStrengthPattern(s);
  }

  /** With no line terminator anywhere, a lookahead finds a class exactly when the class occurs. */
  lemma LookaheadIffOccurs(s: string, inClass: char -> bool)
    requires forall j :: 0 <= j < |s| ==> !IsLineTerminator(s[j])
    ensures LookaheadFinds(s, inClass) <==> exists i :: 0 <= i < |s| && inClass(s[i])
  {
  }

  /** A basic password passes iff its length is 6..128; a login password iff 1..128. */
  lemma PasswordLengthRules(s: string, isEmail: string -> bool)
    ensures CheckIssues("password", BasicPasswordChecks, s, isEmail) == [] <==> 6 <= Utf16Length(s) <= 128
    ensures CheckIssues("password", LoginPasswordChecks, s, isEmail) == [] <==> 1 <= Utf16Length(s) <= 128
  {
    assert Passes(BasicPasswordChecks[0], s, isEmail) <==> 6 <= Utf16Length(s);
    assert Passes(BasicPasswordChecks[1], s, isEmail) <==> Utf16Length(s) <= 128;
    assert Passes(LoginPasswordChecks[0], s, isEmail) <==> 1 <= Utf16Length(s);
    assert Passes(LoginPasswordChecks[1], s, isEmail) <==> Utf16Length(s) <= 128;
  }

  /** An email passes iff it has the email format and 3..255 UTF-16 units. */
  lemma EmailRule(s: string, isEmail: string -> bool)
    ensures CheckIssues("email", EmailChecks, s, isEmail) == [] <==> isEmail(s) && 3 <= Utf16Length(s) <= 255
  {
    assert Passes(EmailChecks[0], s, isEmail) <==> isEmail(s);
    assert Passes(EmailChecks[1], s, isEmail) <==> 3 <= Utf16Length(s);
    assert Passes(EmailChecks[2], s, isEmail) <==> Utf16Length(s) <= 255;
  }

  /** A non-empty body passes `validate(registerSchema)` iff it carries a
      well-formed email and a strong password. */
  lemma RegisterBodyAcceptedIff(body: Body, isEmail: string -> bool)
    requires body != map[]
    ensures Validate(RegisterSchema, Some(body), isEmail) == Next <==>
      && "email" in body && body["email"].JString?
      && isEmail(body["email"].s) && 3 <= Utf16Length(body["email"].s) <= 255
      && "password" in body && body["password"].JString?
      && StrongPassword(body["password"].s)
  {
    var fields := Fields(RegisterSchema);
    if "email" in body && body["email"].JString? {
      EmailRule(body["email"].s, isEmail);
    }
    if "password" in body && body["password"].JString? {
      StrongPasswordChecksIff(body["password"].s, isEmail);
    }
    assert ObjectIssues(body, fields, isEmail) == [] <==>
      FieldIssues(body, fields[0], isEmail) == [] && FieldIssues(body, fields[1], isEmail) == [];
  }

  /** A non-empty body passes `validate(loginSchema)` iff it carries a
      well-formed email and a password of 1..128 units. */
  lemma LoginBodyAcceptedIff(body: Body, isEmail: string -> bool)
    requires body != map[]
    ensures Validate(LoginSchema, Some(body), isEmail) == Next <==>
      && "email" in body && body["email"].JString?
      && isEmail(body["email"].s) && 3 <= Utf16Length(body["email"].s) <= 255
      && "password" in body && body["password"].JString?
      && 1 <= Utf16Length(body["password"].s) <= 128
  {
    var fields := Fields(LoginSchema);
    if "email" in body && body["email"].JString? {
      EmailRule(body["email"].s, isEmail);
    }
    if "password" in body && body["password"].JString? {
      PasswordLengthRules(body["password"].s, isEmail);
    }
    assert ObjectIssues(body, fields, isEmail) == [] <==>
      FieldIssues(body, fields[0], isEmail) == [] && FieldIssues(body, fields[1], isEmail) == [];
  }

  /** A non-empty body passes `validate(refreshTokenSchema)` iff its
      `refreshToken` is a non-empty string. */
  lemma RefreshBodyAcceptedIff(body: Body, isEmail: string -> bool)
    requires body != map[]
    ensures Validate(RefreshTokenSchema, Some(body), isEmail) == Next <==>
      "refreshToken" in body && body["refreshToken"].JString? && body["refreshToken"].s != []
  {
    var fields := Fields(RefreshTokenSchema);
    assert ObjectIssues(body, fields, isEmail) == [] <==> FieldIssues(body, fields[0], isEmail) == [];
    if "refreshToken" in body && body["refreshToken"].JString? {
      var s := body["refreshToken"].s;
      assert CheckIssues("refreshToken", fields[0].checks, s, isEmail) == [] <==> Utf16Length(s) >= 1;
      assert s != [] ==> Utf16Length(s) >= 1;
    }
  }

  /** A non-empty body passes `validate(updateRoleSchema)` iff its `role` is
      exactly 'user' or 'admin'. */
  lemma RoleBodyAcceptedIff(body: Body, isEmail: string -> bool)
    requires body != map[]
    ensures Validate(UpdateRoleSchema, Some(body), isEmail) == Next <==>
      "role" in body && body["role"].JString? && IsKnownRole(body["role"].s)
  {
    var fields := Fields(UpdateRoleSchema);
    assert ObjectIssues(body, fields, isEmail) == [] <==> FieldIssues(body, fields[0], isEmail) == [];
  }

  /** The cross-field rule of `updateProfileSchema` reports on `currentPassword`
      exactly when every field has its type, a non-empty `newPassword` is sent
      and `currentPassword` is missing or empty. */
  lemma ChangePasswordRuleIff(body: Body, isEmail: string -> bool)
    ensures ChangePasswordRule in SchemaIssues(UpdateProfileSchema, body, isEmail) <==>
      && (forall key :: key in ["email", "currentPassword", "newPassword"] && key in body ==> body[key].JString?)
      && Truthy(body, "newPassword") && !Truthy(body, "currentPassword")
  {
    var fields := Fields(UpdateProfileSchema);
    ObjectIssuesPaths(body, fields, isEmail);
    var refine := RefineIssues(UpdateProfileSchema, body);
    assert ChangePasswordRule in SchemaIssues(UpdateProfileSchema, body, isEmail) <==> ChangePasswordRule in refine;
    ProfileFieldsTyped(body);
  }

  /** The profile fields all have their types exactly when each of the three
      keys, if present, holds a string. */
  lemma ProfileFieldsTyped(body: Body)
    ensures (forall i :: 0 <= i < |Fields(UpdateProfileSchema)| ==> TypeOk(body, Fields(UpdateProfileSchema)[i])) <==>
      (forall key :: key in ["email", "currentPassword", "newPassword"] && key in body ==> body[key].JString?)
  {
    var fields := Fields(UpdateProfileSchema);
    assert fields[0].key == "email" && fields[1].key == "currentPassword" && fields[2].key == "newPassword";
  }

  /** Field issues never carry the refinement's message. */
  lemma {:induction false} ObjectIssuesPaths(body: Body, fields: seq<Field>, isEmail: string -> bool)
    requires forall i :: 0 <= i < |fields| ==> fields[i].StringField? && forall j :: 0 <= j < |fields[i].checks| ==> fields[i].checks[j].message != ChangePasswordRule.message
    ensures ChangePasswordRule !in ObjectIssues(body, fields, isEmail)
  {
    if fields != [] {
      ObjectIssuesPaths(body, fields[1..], isEmail);
      var f := fields[0];
      if TypeOk(body, f) && f.key in body {
        CheckIssuesAvoid(f.key, f.checks, body[f.key].s, isEmail, ChangePasswordRule);
      }
    }
  }

  /** A string check reports only its own messages: an issue with any other message is not among them. */
  lemma {:induction false} CheckIssuesAvoid(path: string, checks: seq<Check>, s: string, isEmail: string -> bool, other: Issue)
    requires forall j :: 0 <= j < |checks| ==> other != Failed(path, checks[j].message)
    ensures other !in CheckIssues(path, checks, s, isEmail)
  {
    if checks != [] {
      CheckIssuesAvoid(path, checks[1..], s, isEmail, other);
    }
  }

  /** A missing or key-less body is refused with the body issue whatever the schema. */
  lemma EmptyBodyRefusedFirst(schema: Schema, body: Option<Body>, isEmail: string -> bool)
    requires body.None? || body.value == map[]
    ensures Validate(schema, body, isEmail) == Reject(400, EmptyBodyMessage, [BodyRequired])
  {
  }
}
