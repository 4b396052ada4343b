/** The API's serializers: the field checks the framework runs from their
    declarations, the hand-written `validate*` hooks, the review
    serializer's `create`, and the user serializer's partial update. */
module Serializers {
  import opened Wrappers
  import opened Users
  import opened Reviews
  import Validators

  const SignupUsernameMaxLength: nat := 150
  const SignupEmailMaxLength: nat := 254
  const TokenUsernameMaxLength: nat := 150
  const ConfirmationCodeMaxLength: nat := 20
  /** The username signup refuses, compared case-sensitively. */
  const ReservedUsername: string := "me"
  const MinScore: int := 1
  const MaxScore: int := 10

  /** The errors the hand-written hooks raise. */
  datatype SerializerError = YearInFuture | ScoreOutOfRange | DuplicateReview

  /** Why a single field was refused; `HookRejected` is a refusal by a
      field's `validate_<field>` hook. */
  datatype FieldIssue =
    | Required
    | Blank
    | TooLong(maxLength: nat)
    | NotUnique
    | InvalidChoice
    | HookRejected(error: SerializerError)

  datatype FieldError = FieldError(field: string, issue: FieldIssue)

  /** The checks a declared text field runs on a submitted value: it must
      be present, not blank unless blank is allowed, and within its
      maximum length. */
  function CheckCharField(value: Option<string>, maxLength: nat, allowBlank: bool): (r: Result<string, FieldIssue>)
    ensures r.Ok? <==> value.Some? && (allowBlank || value.value != "") && |value.value| <= maxLength
    ensures r.Ok? ==> r.value == value.value
  {
    if value.None? then Err(Required)
    else if !allowBlank && value.value == "" then Err(Blank)
    else if |value.value| > maxLength then Err(TooLong(maxLength))
    else Ok(value.value)
  }

  function ErrorsOf<T>(field: string, check: Result<T, FieldIssue>): (errors: seq<FieldError>)
    ensures errors == [] <==> check.Ok?
  {
    if check.Err? then [FieldError(field, check.error)] else []
  }

  // ---------------------------------------------------------------- signup

  /** The submitted signup body; a key may be missing. */
  datatype SignupData = SignupData(username: Option<string>, email: Option<string>)

  /** A signup body that passed validation. */
  datatype Registration = Registration(username: string, email: string)

  datatype SignupError =
    | InvalidFields(errors: seq<FieldError>)
    | UsernameReserved
    | EmailInUse(email: string)
    | UsernameInUse(username: string)

  predicate SignupFieldsValid(data: SignupData)
  {
    && data.username.Some? && data.username.value != "" && |data.username.value| <= SignupUsernameMaxLength
    && data.email.Some? && data.email.value != "" && |data.email.value| <= SignupEmailMaxLength
  }

  /** `SignupSerializer.is_valid()`: the field checks of both fields, then
      `validate`, which refuses the reserved username, then an e-mail
      already in the table, then a username already in the table, and
      otherwise returns the data unchanged. */
  function ValidateSignup(data: SignupData, users: seq<User>): (r: Result<Registration, SignupError>)
    ensures r.Ok? <==>
      && SignupFieldsValid(data)
      && data.username.value != ReservedUsername
      && !EmailTaken(users, data.email.value)
      && !UsernameTaken(users, data.username.value)
    ensures r.Ok? ==> r.value == Registration(data.username.value, data.email.value)
    ensures (r.Err? && r.error.InvalidFields?) <==> !SignupFieldsValid(data)
    ensures r.Err? && r.error.InvalidFields? ==> r.error.errors != []
  {
    var username := CheckCharField(data.username, SignupUsernameMaxLength, false);
    var email := CheckCharField(data.email, SignupEmailMaxLength, false);
    if username.Err? || email.Err? then
      Err(InvalidFields(ErrorsOf("username", username) + ErrorsOf("email", email)))
    else if username.value == ReservedUsername then
      Err(UsernameReserved)
    else if EmailTaken(users, email.value) then
      Err(EmailInUse(email.value))
    else if UsernameTaken(users, username.value) then
      Err(UsernameInUse(username.value))
    else
      Ok(Registration(username.value, email.value))
  }

  /** "me" is refused whatever the table holds, before any lookup. */
  lemma SignupRejectsMe(email: string, users: seq<User>)
    requires email != "" && |email| <= SignupEmailMaxLength
    ensures ValidateSignup(SignupData(Some("me"), Some(email)), users) == Err(UsernameReserved)
  {
  }

  /** The comparison with "me" is case-sensitive: "Me" is never refused as reserved. */
  lemma SignupAcceptsCapitalMe(email: string, users: seq<User>)
    ensures ValidateSignup(SignupData(Some("Me"), Some(email)), users) != Err(UsernameReserved)
  {
  }

  lemma SignupRejectsTakenEmail(data: SignupData, users: seq<User>)
    requires SignupFieldsValid(data) && data.username.value != ReservedUsername
    requires EmailTaken(users, data.email.value)
    ensures ValidateSignup(data, users) == Err(EmailInUse(data.email.value))
  {
  }

  lemma SignupRejectsTakenUsername(data: SignupData, users: seq<User>)
    requires SignupFieldsValid(data) && data.username.value != ReservedUsername
    requires !EmailTaken(users, data.email.value) && UsernameTaken(users, data.username.value)
    ensures ValidateSignup(data, users) == Err(UsernameInUse(data.username.value))
  {
  }

  // ----------------------------------------------------------------- token

  /** The submitted token body; a key may be missing. */
  datatype TokenData = TokenData(username: Option<string>, confirmationCode: Option<string>)

  /** `TokenSerializer.is_valid()`: only the declared field checks. */
  function ValidateTokenFields(data: TokenData): (r: Result<(string, string), seq<FieldError>>)
    ensures r.Ok? <==>
      && data.username.Some? && data.username.value != "" && |data.username.value| <= TokenUsernameMaxLength
      && data.confirmationCode.Some? && data.confirmationCode.value != ""
      && |data.confirmationCode.value| <= ConfirmationCodeMaxLength
    ensures r.Ok? ==> r.value == (data.username.value, data.confirmationCode.value)
    ensures r.Err? ==> r.error != []
  {
    var username := CheckCharField(data.username, TokenUsernameMaxLength, false);
    var code := CheckCharField(data.confirmationCode, ConfirmationCodeMaxLength, false);
    if username.Err? || code.Err? then
      Err(ErrorsOf("username", username) + ErrorsOf("confirmation_code", code))
    else
      Ok((username.value, code.value))
  }

  // ----------------------------------------------------------------- title

  /** `TitleWriteSerializer.validate_year`, with the year the clock gives passed in. */
  function ValidateTitleYear(value: int, currentYear: int): (r: Result<int, SerializerError>)
    ensures r.Ok? <==> value <= currentYear
    ensures r.Ok? ==> r.value == value
    ensures r.Err? ==> r.error == YearInFuture
  {
    if value > currentYear then Err(YearInFuture) else Ok(value)
  }

  /** The serializer hook and the model validator accept the same years
      when they read the same current year. */
  lemma TitleYearAgreesWithModelValidator(value: int, currentYear: int)
    ensures ValidateTitleYear(value, currentYear).Ok? <==> Validators.ValidateYear(value, currentYear).None?
  {
  }

  // ---------------------------------------------------------------- review

  /** `ReviewSerializer.validate_score` */
  function ValidateScore(value: int): (r: Result<int, SerializerError>)
    ensures r.Ok? <==> MinScore <= value <= MaxScore
    ensures r.Ok? ==> r.value == value
    ensures r.Err? ==> r.error == ScoreOutOfRange
  {
    if !(0 < value <= 10) then Err(ScoreOutOfRange) else Ok(value)
  }

  /** The checks of a text column declared without `blank=True`: present and not blank. */
  function CheckTextField(value: Option<string>): (r: Result<string, FieldIssue>)
    ensures r.Ok? <==> value.Some? && value.value != ""
    ensures r.Ok? ==> r.value == value.value
  {
    if value.None? then Err(Required)
    else if value.value == "" then Err(Blank)
    else Ok(value.value)
  }

  /** The submitted review body; both keys are required. */
  datatype ReviewData = ReviewData(text: Option<string>, score: Option<int>)

  /** `ReviewSerializer.is_valid()`: `text` must be given and not blank,
      `score` must be given and pass `validate_score`; the errors of both
      fields are reported together. */
  function ReviewBodyErrors(data: ReviewData): (errors: seq<FieldError>)
    ensures errors == [] <==>
      data.text.Some? && data.text.value != "" && data.score.Some? && MinScore <= data.score.value <= MaxScore
  {
    var score :=
      if data.score.None? then Err(Required)
      else match ValidateScore(data.score.value)
        case Ok(v) => Ok(v)
        case Err(e) => Err(HookRejected(e));
    ErrorsOf("text", CheckTextField(data.text)) + ErrorsOf("score", score)
  }

  /** `CommentSerializer.is_valid()`: `text` must be given and not blank. */
  function CommentBodyErrors(text: Option<string>): (errors: seq<FieldError>)
    ensures errors == [] <==> text.Some? && text.value != ""
  {
    ErrorsOf("text", CheckTextField(text))
  }

  /** `ReviewSerializer.create`: refuses a second review of the same title
      by the same author and leaves the table alone; otherwise inserts
      exactly one row. */
  method CreateReview(table: ReviewTable, author: nat, title: nat, text: string, score: int)
    returns (r: Result<Review, SerializerError>)
    requires table.Valid()
    modifies table
    ensures table.Valid()
    ensures r.Err? <==> HasReview(old(table.rows), author, title)
    ensures r.Err? ==> r.error == DuplicateReview && table.rows == old(table.rows) && table.nextId == old(table.nextId)
    ensures r.Ok? ==>
      && r.value == Review(old(table.nextId), title, author, text, score)
      && table.rows == old(table.rows) + [r.value]
    ensures OneReviewPerAuthorAndTitle(old(table.rows)) ==> OneReviewPerAuthorAndTitle(table.rows)
  {
    if HasReview(table.rows, author, title) {
      return Err(DuplicateReview);
    }
    ghost var before := table.rows;
    var review := table.Insert(title, author, text, score);
    if OneReviewPerAuthorAndTitle(before) {
      AppendKeepsOneReview(before, review);
    }
    return Ok(review);
  }

  // ------------------------------------------------------------------ user

  /** A partial update body for the user serializer; absent keys are not touched. */
  datatype UserPatch = UserPatch(
    username: Option<string>,
    email: Option<string>,
    firstName: Option<string>,
    lastName: Option<string>,
    bio: Option<string>,
    role: Option<string>)

  /** A patch that passed validation, with the role parsed. */
  datatype UserChanges = UserChanges(
    username: Option<string>,
    email: Option<string>,
    firstName: Option<string>,
    lastName: Option<string>,
    bio: Option<string>,
    role: Option<Role>)

  /** The unique validator of a column, which skips the row being updated. */
  predicate UsernameTakenByOther(rows: seq<User>, username: string, id: nat)
  {
    exists u :: u in rows && u.id != id && u.username == username
  }

  predicate EmailTakenByOther(rows: seq<User>, email: string, id: nat)
  {
    exists u :: u in rows && u.id != id && u.email == email
  }

  /** The checks of one submitted key of a partial update. */
  function PatchFieldIssue(value: Option<string>, maxLength: nat, allowBlank: bool, takenByOther: bool): (issue: Option<FieldIssue>)
    ensures issue.None? <==>
      value.None? || ((allowBlank || value.value != "") && |value.value| <= maxLength && !takenByOther)
  {
    if value.None? then None
    else if !allowBlank && value.value == "" then Some(Blank)
    else if |value.value| > maxLength then Some(TooLong(maxLength))
    else if takenByOther then Some(NotUnique)
    else None
  }

  function ErrorOf(field: string, issue: Option<FieldIssue>): (errors: seq<FieldError>)
    ensures errors == [] <==> issue.None?
  {
    if issue.Some? then [FieldError(field, issue.value)] else []
  }

  /** What a partial update must satisfy to be accepted. */
  predicate PatchAcceptable(p: UserPatch, caller: User, rows: seq<User>)
  {
    && (p.username.Some? ==>
          p.username.value != "" && |p.username.value| <= UsernameMaxLength
          && !UsernameTakenByOther(rows, p.username.value, caller.id))
    && (p.email.Some? ==>
          p.email.value != "" && |p.email.value| <= EmailMaxLength
          && !EmailTakenByOther(rows, p.email.value, caller.id))
    && (p.bio.Some? ==> |p.bio.value| <= BioMaxLength)
    && (p.role.Some? ==> ParseRole(p.role.value).Some?)
  }

  /** `UserSerializer(user, data=..., partial=True).is_valid()`: only the
      submitted keys are checked, each against its column's declaration. */
  function ValidateUserPatch(p: UserPatch, caller: User, rows: seq<User>): (r: Result<UserChanges, seq<FieldError>>)
    ensures r.Ok? <==> PatchAcceptable(p, caller, rows)
    ensures r.Err? ==> r.error != []
    ensures r.Ok? ==>
      && r.value.username == p.username && r.value.email == p.email
      && r.value.firstName == p.firstName && r.value.lastName == p.lastName && r.value.bio == p.bio
      && (p.role.None? ==> r.value.role.None?)
      && (p.role.Some? ==> r.value.role.Some? && RoleValue(r.value.role.value) == p.role.value)
  {
    var errors :=
      ErrorOf("username", PatchFieldIssue(p.username, UsernameMaxLength, false,
                                          UsernameTakenByOther(rows, p.username.GetOr(""), caller.id)))
      + ErrorOf("email", PatchFieldIssue(p.email, EmailMaxLength, false,
                                         EmailTakenByOther(rows, p.email.GetOr(""), caller.id)))
      + ErrorOf("bio", PatchFieldIssue(p.bio, BioMaxLength, true, false))
      + (if p.role.Some? && ParseRole(p.role.value).None? then [FieldError("role", InvalidChoice)] else []);
    if errors != [] then Err(errors)
    else
      var role := if p.role.Some? then ParseRole(p.role.value) else None;
      Ok(UserChanges(p.username, p.email, p.firstName, p.lastName, p.bio, role))
  }

  /** `serializer.save(role=...)` on a partial update: every submitted
      column is written, except that `role` takes the value handed to
      `save`, which overrides the submitted one. */
  function SaveChanges(u: User, c: UserChanges, role: Role): (v: User)
    ensures v.id == u.id && v.isSuperuser == u.isSuperuser && v.role == role
    ensures c.username.Some? ==> v.username == c.username.value
    ensures c.username.None? ==> v.username == u.username
    ensures c.email.Some? ==> v.email == c.email.value
    ensures c.email.None? ==> v.email == u.email
    ensures c.firstName.Some? ==> v.firstName == c.firstName.value
    ensures c.firstName.None? ==> v.firstName == u.firstName
    ensures c.lastName.Some? ==> v.lastName == c.lastName.value
    ensures c.lastName.None? ==> v.lastName == u.lastName
    ensures c.bio.Some? ==> v.bio == c.bio.value
    ensures c.bio.None? ==> v.bio == u.bio
  {
    u.(username := c.username.GetOr(u.username),
       email := c.email.GetOr(u.email),
       firstName := c.firstName.GetOr(u.firstName),
       lastName := c.lastName.GetOr(u.lastName),
       bio := c.bio.GetOr(u.bio),
       role := role)
  }
}
