# YaMDb access control and validation, modelled in Dafny

YaMDb is a REST backend for reviews of titles (books, films, albums),
grouped into categories and genres, with comments on reviews and
accounts that sign up by e-mail confirmation code. Almost all of it is
framework configuration. This project models the layer that makes
decisions of its own:

- the account record, its three-valued `role` and the derived
  `is_admin` / `is_moderator` flags (`Users`);
- the four request permission predicates and the framework's `|`
  composition of them, and, per view, exactly which (method, requester)
  pairs get through (`Permissions`, `Views`);
- the validators: the year of a title, the score of a review, the signup
  body (reserved username `me`, taken e-mail, taken username, field
  lengths), the token body, and the partial update of `/users/me/`
  (`Validators`, `Serializers`);
- the table bookkeeping: signup creates exactly one fresh account,
  review creation keeps at most one review per (author, title),
  `PATCH /users/me/` never changes a role, and the title listing's name
  filter keeps exactly the titles whose name contains the given text
  (`Serializers`, `Views`).

Database tables are classes (`Users.UserTable`, `Reviews.ReviewTable`,
`Reviews.CommentTable`) whose rows are a `seq` the write operations
reassign; the uniqueness the database keeps is each table's `Valid()`
(keys, and for users also e-mails and usernames; review and comment keys
ascend in insertion order).
Tables that are only read (titles, and the other tables where a view only
looks things up) are passed as sequences. Pure decisions are functions;
operations that insert or update rows are methods whose postconditions
give the new table in terms of the old one.

Parameters stand in for what the code reads from outside: the current
year (the serializer reads it from a naive local clock, the model
validator from the timezone-aware clock; each is a parameter of its own
function, and `Serializers.TitleYearAgreesWithModelValidator` relates them
when both read the same year) and the token generator's `check_token`
(a function parameter of `Views.Token`).

`api_yamdb/reviews/models.py` is not part of this model: the columns of
titles, reviews and comments are a subset of those the serializers list
(the columns left out are named under "## Left out").

Observations the model makes explicit, all as the code is written:

- a superuser whose role is "moderator" is both admin and moderator
  (`Users.SuperuserModeratorIsBoth`);
- `IsOwnerPermission` never looks at ownership, and no view adds an
  object-level check, so any signed-in account may update or delete any
  review or comment (`Views.ReviewWritesNeedSignIn`);
- the four-way composite on reviews and comments grants exactly what
  `IsOwnerPermission` grants alone (`Views.ReviewPermissionIsOwner`);
- `HEAD` on titles selects the write serializer (`Views.TitleSerializerFor`);
- comment listing and creation look the review up by its key alone and
  never check the title in the path (`Views.CommentQueryset`,
  `Views.PostComment`);
- the token view changes no state, so nothing in it invalidates a
  confirmation code once used (`Views.Token` is a function).

## Model

| member | source | states |
|---|---|---|
| Users.RoleValue | api_yamdb/user/models.py:16-20 | every stored role string is non-empty and fits the column's 16 characters |
| Users.ParseRole | api_yamdb/user/models.py:6-10 | a submitted role is accepted only if it is one of the three choices, and then stores back as the same string |
| Users.RoleRoundTrip | api_yamdb/user/models.py:6-10 | each choice's stored string reads back as that choice |
| Users.IsAdmin | api_yamdb/user/models.py:22-24 | is_admin holds iff the role is admin or the account is a superuser |
| Users.IsModerator | api_yamdb/user/models.py:26-28 | is_moderator holds iff the role is moderator |
| Users.SuperuserIsAdmin | api_yamdb/user/models.py:24 | a superuser is an admin whatever its role |
| Users.ModeratorIgnoresSuperuser | api_yamdb/user/models.py:27-28 | changing the superuser flag never changes is_moderator |
| Users.AdminRoleIsNotModerator | api_yamdb/user/models.py:23-28 | a row with role admin is admin and never moderator |
| Users.SuperuserModeratorIsBoth | api_yamdb/user/models.py:23-28 | a superuser with role moderator is both admin and moderator |
| Users.NewUser | api_yamdb/api/views.py:36 | the row the ORM creates from an e-mail and a username has those values, an empty bio, role user, no superuser flag, and is neither admin nor moderator |
| Users.EmailTaken | api_yamdb/api/serializers.py:23 | the row-by-row scan for an e-mail reports a hit iff the table holds a row with that e-mail |
| Users.UsernameTaken | api_yamdb/api/serializers.py:29 | the row-by-row scan for a username reports a hit iff the table holds a row with that username |
| Users.NewUserIsUnprivileged | api_yamdb/user/models.py:16-20 | a row created with every other column defaulted has role user and is neither admin nor moderator |
| Users.FindByUsername | api_yamdb/api/views.py:59 | the lookup finds a row with that username, and finds none exactly when no row has it |
| Users.FindByEmailAndUsername | api_yamdb/api/views.py:36 | the get half of get_or_create finds a row matching both columns, or reports that none does |
| Users.AppendKeepsUniqueKeys | api_yamdb/user/models.py:11-14 | appending a row with a fresh key, unused e-mail and unused username keeps the unique columns unique |
| Users.UserTable.GetOrCreate | api_yamdb/api/views.py:36 | returns the matching row unchanged; otherwise inserts one defaulted row with the next key, or refuses when the e-mail or username is taken; the table stays unique |
| Users.UserTable.Save | api_yamdb/api/views.py:92 | overwrites exactly the loaded row unless another row holds the same e-mail or username; the table stays unique |
| Permissions.IsAdminPermission | api_yamdb/api/permissions.py:4-7 | grants iff the requester is signed in and has role admin or is a superuser |
| Permissions.IsModeratorPermission | api_yamdb/api/permissions.py:10-13 | grants iff the requester is signed in and has role moderator |
| Permissions.IsOwnerPermission | api_yamdb/api/permissions.py:16-20 | grants every safe method to anyone, and any other method iff signed in |
| Permissions.ReadOnlyPermission | api_yamdb/api/permissions.py:23-25 | grants iff the method is not POST, PUT, PATCH, DELETE or TRACE, which among the eight method names the views dispatch on leaves exactly GET, HEAD and OPTIONS |
| Permissions.ReadOnlyIgnoresRequester | api_yamdb/api/permissions.py:24-25 | the read-only answer is the same for every requester |
| Permissions.HasPermission | api_yamdb/api/views.py:111 | the `\|` of two classes grants iff either operand grants; any grant is for a safe method, for a signed-in requester, or comes from AllowAny |
| Permissions.NoAnonymousUnsafeGrant | api_yamdb/api/permissions.py:5-25 | no `\|`-combination of the four predicates and IsAuthenticated ever grants an unsafe method to an anonymous request |
| Permissions.ViewIndependent | api_yamdb/api/permissions.py:5-25 | no combination of the predicates gives a different answer for a different view |
| Validators.ValidateYear | api_yamdb/reviews/validators.py:6-11 | accepts a year iff it is at most the current year; a rejection carries the offending value |
| Validators.CurrentYearAccepted | api_yamdb/reviews/validators.py:7 | the current year itself is accepted |
| Validators.AcceptanceIsMonotone | api_yamdb/reviews/validators.py:7 | every year below an accepted year is accepted |
| Reviews.FindTitle | api_yamdb/api/views.py:167 | the title lookup finds the title with that key, or reports that none has it |
| Reviews.FindReview | api_yamdb/api/views.py:181 | the review lookup finds the review with that key, or reports that none has it |
| Reviews.ReviewsOfTitle | api_yamdb/api/views.py:168 | exactly the reviews of the given title |
| Reviews.CommentsOfReview | api_yamdb/api/views.py:182 | exactly the comments of the given review |
| Reviews.ReviewsOfTitleKeepsOrder | api_yamdb/api/views.py:168 | the reviews of a title taken from a table in ascending key order are in ascending key order |
| Reviews.CommentsOfReviewKeepsOrder | api_yamdb/api/views.py:182 | the comments of a review taken from a table in ascending key order are in ascending key order |
| Reviews.HasReview | api_yamdb/api/serializers.py:133 | the row-by-row scan for an (author, title) pair reports a hit iff the table holds a review by that author of that title |
| Reviews.ReviewsBy | api_yamdb/api/serializers.py:133 | exactly the reviews of one author about one title (every one of them, and nothing else); empty iff the existence check is false |
| Reviews.AtMostOneReview | api_yamdb/api/serializers.py:129-142 | under the one-review invariant an author has at most one review of a title |
| Reviews.AppendKeepsOneReview | api_yamdb/api/serializers.py:133-142 | adding a review for a pair without one keeps the invariant |
| Reviews.ReviewTable.Insert | api_yamdb/api/serializers.py:142 | appends exactly one review with the next key; keys stay unique and ascending |
| Reviews.CommentTable.Insert | api_yamdb/api/views.py:186 | appends exactly one comment with the next key; keys stay unique and ascending |
| Serializers.CheckCharField | api_yamdb/api/serializers.py:13-14 | a text field passes iff present, non-blank and within its maximum length, and passes its value unchanged |
| Serializers.ValidateSignup | api_yamdb/api/serializers.py:12-34 | signup passes iff both fields pass, the username is not exactly "me", and neither the e-mail nor the username is in the table; it then returns the input unchanged; a field error is reported iff some field fails, before any of the `validate` refusals |
| Serializers.SignupRejectsMe | api_yamdb/api/serializers.py:17-20 | "me" is refused whatever the table holds, before the lookups |
| Serializers.SignupAcceptsCapitalMe | api_yamdb/api/serializers.py:17 | the comparison is case-sensitive: "Me" is never refused as the reserved name, whatever the e-mail and the table |
| Serializers.SignupRejectsTakenEmail | api_yamdb/api/serializers.py:22-26 | an e-mail already in the table is refused, and the error names it |
| Serializers.SignupRejectsTakenUsername | api_yamdb/api/serializers.py:28-32 | a username already in the table is refused, and the error names it |
| Serializers.ValidateTokenFields | api_yamdb/api/serializers.py:37-39 | the token body passes iff the username has at most 150 and the code at most 20 non-blank characters, and is returned unchanged |
| Serializers.ValidateTitleYear | api_yamdb/api/serializers.py:94-98 | rejects a year above the current year and otherwise returns the value unchanged |
| Serializers.TitleYearAgreesWithModelValidator | api_yamdb/api/serializers.py:94-98 | for the same current year the serializer hook and the model validator accept the same years |
| Serializers.ValidateScore | api_yamdb/api/serializers.py:122-127 | accepts exactly the integers 1 to 10 and returns the value unchanged |
| Serializers.CheckTextField | api_yamdb/api/serializers.py:118 | a text column passes iff present and non-blank, and passes its value unchanged |
| Serializers.ReviewBodyErrors | api_yamdb/api/serializers.py:116-127 | a review body has no field errors iff text is present and non-blank and score is present and in 1..10 |
| Serializers.CommentBodyErrors | api_yamdb/api/serializers.py:151-154 | a comment body has no field errors iff text is present and non-blank |
| Serializers.CreateReview | api_yamdb/api/serializers.py:129-142 | fails and leaves the table unchanged iff the author already reviewed the title; otherwise appends exactly one review; either way the one-review invariant is kept |
| Serializers.PatchFieldIssue | api_yamdb/api/serializers.py:42-46 | a submitted key passes iff absent, or non-blank where required, within its length and not taken by another row |
| Serializers.ValidateUserPatch | api_yamdb/api/serializers.py:42-46 | a partial update passes iff each submitted key passes its column's checks and a submitted role is one of the choices; the accepted changes are the submitted keys |
| Serializers.SaveChanges | api_yamdb/api/views.py:92 | the saved row keeps its key and superuser flag and takes the role handed to save; each of username, e-mail, first name, last name and bio takes the submitted value if submitted and keeps its old value otherwise |
| Views.PermissionClasses | api_yamdb/api/views.py:29-178 | each view lists one class, and only signup and token list AllowAny |
| Views.Permitted | api_yamdb/api/views.py:29-178 | a request passes a view only if every listed class grants; only signup and token admit an anonymous request with an unsafe method |
| Views.CatalogWritesNeedAdmin | api_yamdb/api/views.py:106-142 | categories, genres and titles admit a request iff its method is safe or the requester is a signed-in admin |
| Views.ReviewPermissionIsOwner | api_yamdb/api/views.py:163-164 | the four-way composite grants exactly what IsOwnerPermission grants |
| Views.ReviewWritesNeedSignIn | api_yamdb/api/views.py:161-178 | reviews and comments admit a request iff its method is safe or the requester is signed in |
| Views.UserViewSetNeedsAdmin | api_yamdb/api/views.py:69-79 | the user endpoints admit a request, reads included, iff the requester is a signed-in admin |
| Views.MeNeedsSignIn | api_yamdb/api/views.py:84-85 | /users/me/ admits a request iff the requester is signed in |
| Views.AnonymousWritesOnlyToAuthFlow | api_yamdb/api/views.py:29-178 | an anonymous request with an unsafe method is admitted iff the view is signup or token |
| Views.Signup | api_yamdb/api/views.py:29-49 | a refused body leaves the table unchanged; an accepted one appends exactly one fresh defaulted account and echoes its e-mail and username; uniqueness and column limits are kept |
| Views.Token | api_yamdb/api/views.py:52-66 | field errors first, 404 iff no account has the username, a token only for that account and only when check_token accepts the code, otherwise 400 keyed by the username |
| Views.TokenIssuedIff | api_yamdb/api/views.py:59-63 | with unique usernames a token is issued iff some account with that username passes check_token |
| Views.PatchedRowDoesNotClash | api_yamdb/api/views.py:90-92 | an accepted partial update never makes the caller's row repeat another row's e-mail or username |
| Views.Me | api_yamdb/api/views.py:73-96 | PATCH writes the validated keys to the caller's row and no other, never changing any role; GET returns the caller and changes nothing; every other method is answered 405 and changes nothing |
| Views.ContainsIffOccurs | api_yamdb/api/views.py:152 | the substring test holds iff the text occurs at some offset of the name |
| Views.EverythingContainsEmpty | api_yamdb/api/views.py:151-152 | every name contains the empty text |
| Views.FilterByName | api_yamdb/api/views.py:152 | keeps exactly the titles whose name contains the text |
| Views.FilterByNameKeepsOrder | api_yamdb/api/views.py:147-152 | a listing in key order stays in key order after the filter |
| Views.TitleQueryset | api_yamdb/api/views.py:146-153 | a missing or empty name leaves the listing as it is; otherwise exactly the titles whose name contains it, still in key order |
| Views.EmptyNameKeepsAll | api_yamdb/api/views.py:150-152 | filtering by the empty text would keep every title, so skipping it changes nothing |
| Views.TitleSerializerFor | api_yamdb/api/views.py:155-158 | the read serializer iff the method is GET; every unsafe method gets the write serializer |
| Views.ReviewQueryset | api_yamdb/api/views.py:166-168 | 404 iff the title does not exist; otherwise exactly that title's reviews, in ascending key order when the table is |
| Views.CommentQueryset | api_yamdb/api/views.py:180-182 | 404 iff the review does not exist; otherwise exactly that review's comments, in ascending key order when the table is |
| Views.PostReview | api_yamdb/api/views.py:170-172 | body errors first (400), then 404 iff the title is missing; a review is created iff the body is valid, the title exists and the caller has not reviewed it; it gets the caller as author and that title; a valid body for an existing title that the caller has already reviewed is refused with the duplicate-review error (400), and only then; the one-review invariant is kept |
| Views.PostComment | api_yamdb/api/views.py:184-186 | body errors first (400), then 404 iff the review is missing; a comment is created iff the text is present and non-blank and the review exists; it gets the caller as author and that review |

## Left out

- Sending the confirmation e-mail, making the confirmation code and issuing the access token: mail delivery, the token generator and the token library are outside the model; `check_token` is a parameter.
- The rating: a database-computed average of scores, returned as a decimal.
- The `genre` and `category` columns of titles and the `pub_date` column of reviews and comments: the relations to the genre and category tables and the creation timestamps bear on none of the permission, validation and uniqueness rules modelled here.
- The clock: the current year is a parameter.
- ORM query machinery, pagination, the search filter on names and usernames, and the category/genre/year filter set: declarative framework configuration.
- JSON parsing and rendering, `to_representation`, status codes other than as the branches of the result types, and the error message texts.
- The framework-generated list, retrieve, update and destroy handlers of the view sets (including the admin-only user CRUD) and the 405 answers for methods a view set does not offer: the model covers who is admitted, not the generic handlers.
- The race between an existence check and the insert that follows it: each request is modelled as one atomic step.
- Email format validation, the username character set, whitespace trimming of text fields, and the first/last name length limits of the framework's base user model.
- A role string outside the three choices written to the database by other means than these serializers.
- Serializers.CheckCharField: reports only the first failing check of a field, where the framework may report several messages for one field.
- Serializers.ValidateUserPatch: reports one issue per field, like CheckCharField, and does not model the first/last name checks.
- Views.FilterByName: models a case-sensitive `contains`; on a database whose `LIKE` ignores case the listing would match more names.
- Views.TitleQueryset: takes the title table as given rather than sorting it; its order promise is stated for a table already in key order, which is what `order_by('id')` produces.
- Views.PostReview: treats `text` as a required, non-blank field with no length limit, the framework's default for a text column declared without `blank=True`; the review model's own declaration is not part of this model.
- Views.PostComment: treats `text` in the same way, for the same reason.
