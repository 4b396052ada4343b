/** The API's views: the permission classes each view set lists, the two
    function views of the authentication flow, the `me` action, the title
    listing's name filter and serializer choice, and the hooks that create
    reviews and comments. */
module Views {
  import opened Wrappers
  import opened Users
  import opened Permissions
  import opened Reviews
  import opened Serializers

  // ----------------------------------------------------------- permissions

  /** The views of the API. */
  datatype ApiView =
    | SignupView
    | TokenView
    | UserViewSet
    | UserMeAction
    | CategoryViewSet
    | GenreViewSet
    | TitleViewSet
    | ReviewViewSet
    | CommentViewSet

  /** `IsAdminPermission | ReadOnlyPermission` */
  const CatalogPermission: PermissionClass := Or(AdminOnly, ReadOnly)

  /** `IsOwnerPermission | IsAdminPermission | IsModeratorPermission |
      ReadOnlyPermission`, grouped from the left as Python groups `|`. */
  const ReviewPermission: PermissionClass := Or(Or(Or(Owner, AdminOnly), ModeratorOnly), ReadOnly)

  /** The `permission_classes` of each view. */
  function PermissionClasses(view: ApiView): (classes: seq<PermissionClass>)
    ensures |classes| == 1
    ensures (view == SignupView || view == TokenView) <==> MentionsAllowAny(classes[0])
  {
    match view
    case SignupView => [AllowAny]
    case TokenView => [AllowAny]
    case UserViewSet => [AdminOnly]
    case UserMeAction => [Authenticated]
    case CategoryViewSet => [CatalogPermission]
    case GenreViewSet => [CatalogPermission]
    case TitleViewSet => [CatalogPermission]
    case ReviewViewSet => [ReviewPermission]
    case CommentViewSet => [ReviewPermission]
  }

  /** The framework's permission check: every listed class must grant.
      Only signup and token let an anonymous request use an unsafe method. */
  function Permitted(view: ApiView, request: Request): (permitted: bool)
    ensures permitted ==>
      IsSafe(request.verb) || request.requester.SignedIn? || view == SignupView || view == TokenView
  {
    var classes := PermissionClasses(view);
    assert classes[0] in classes;
    forall p :: p in classes ==> HasPermission(p, request, view)
  }

  /** Categories, genres and titles: anyone may read, only a signed-in
      admin (role "admin" or superuser) may write. */
  lemma CatalogWritesNeedAdmin(view: ApiView, request: Request)
    requires view == CategoryViewSet || view == GenreViewSet || view == TitleViewSet
    ensures Permitted(view, request) <==>
      IsSafe(request.verb) || (request.requester.SignedIn? && IsAdmin(request.requester.user))
  {
    assert PermissionClasses(view) == [CatalogPermission];
    assert Permitted(view, request) <==> HasPermission(CatalogPermission, request, view);
  }

  /** The four-way composite of reviews and comments grants exactly what
      `IsOwnerPermission` alone grants: every request the other three
      grant, `IsOwnerPermission` grants too. */
  lemma ReviewPermissionIsOwner<V>(request: Request, view: V)
    ensures HasPermission(ReviewPermission, request, view) == IsOwnerPermission(request, view)
  {
  }

  /** Reviews and comments: anyone may read, any signed-in account may use
      every other method, on any review or comment whoever wrote it. */
  lemma ReviewWritesNeedSignIn(view: ApiView, request: Request)
    requires view == ReviewViewSet || view == CommentViewSet
    ensures Permitted(view, request) <==> IsSafe(request.verb) || request.requester.SignedIn?
  {
    assert PermissionClasses(view) == [ReviewPermission];
    assert Permitted(view, request) <==> HasPermission(ReviewPermission, request, view);
    ReviewPermissionIsOwner(request, view);
  }

  /** The user list and detail endpoints: only a signed-in admin, for reads too. */
  lemma UserViewSetNeedsAdmin(request: Request)
    ensures Permitted(UserViewSet, request) <==>
      request.requester.SignedIn? && IsAdmin(request.requester.user)
  {
    assert PermissionClasses(UserViewSet) == [AdminOnly];
    assert Permitted(UserViewSet, request) <==> HasPermission(AdminOnly, request, UserViewSet);
  }

  /** `/users/me/`: any signed-in account. */
  lemma MeNeedsSignIn(request: Request)
    ensures Permitted(UserMeAction, request) <==> request.requester.SignedIn?
  {
    assert PermissionClasses(UserMeAction) == [Authenticated];
    assert Permitted(UserMeAction, request) <==> HasPermission(Authenticated, request, UserMeAction);
  }

  /** Only signup and token admit an anonymous request with an unsafe method. */
  lemma AnonymousWritesOnlyToAuthFlow(view: ApiView, verb: Verb)
    requires !IsSafe(verb)
    ensures Permitted(view, Request(verb, Anonymous)) <==> view == SignupView || view == TokenView
  {
    var p := PermissionClasses(view)[0];
    if !MentionsAllowAny(p) {
      NoAnonymousUnsafeGrant(p, verb, view);
      assert !HasPermission(p, Request(verb, Anonymous), view);
    }
  }

  /** The API errors of the views: field errors (400), a refusal by a
      serializer hook (400), a missing row (404), a method the view does
      not serve (405). */
  datatype ApiError =
    | InvalidBody(errors: seq<FieldError>)
    | Rejected(error: SerializerError)
    | NotFound
    | MethodNotAllowed

  // ---------------------------------------------------------------- signup

  /** The body of a successful signup response. */
  datatype SignupResponse = SignupResponse(email: string, username: string)

  /** `signup`: validate, then `get_or_create` the account. Because
      validation has already refused a taken e-mail or username, the
      lookup never finds a row and the insert never clashes: every
      accepted signup adds one fresh, unprivileged account. The
      confirmation code and its e-mail are not part of this model. */
  method Signup(users: UserTable, data: SignupData) returns (r: Result<SignupResponse, SignupError>)
    requires users.Valid() && WithinFieldLimits(users.rows)
    modifies users
    ensures users.Valid() && WithinFieldLimits(users.rows)
    ensures var v := ValidateSignup(data, old(users.rows));
      && (v.Err? ==> r == Err(v.error) && users.rows == old(users.rows))
      && (v.Ok? ==>
            && r == Ok(SignupResponse(v.value.email, v.value.username))
            && users.rows == old(users.rows) + [NewUser(old(users.nextId), v.value.username, v.value.email)])
  {
    var v := ValidateSignup(data, users.rows);
    if v.Err? {
      return Err(v.error);
    }
    var registration := v.value;
    var created := users.GetOrCreate(registration.email, registration.username);
    return Ok(SignupResponse(registration.email, registration.username));
  }

  // ----------------------------------------------------------------- token

  /** The outcomes of the token view: a token for an account, a 400 keyed
      by the username, a 404, or the field errors. */
  datatype TokenOutcome =
    | TokenIssued(user: User)
    | CodeIncorrect(username: string)
    | UserNotFound
    | TokenFieldsInvalid(errors: seq<FieldError>)

  /** `token`: after the field checks, the account named by the username
      or 404; then a token exactly when `checkToken` accepts the code for
      that account. The token generator is the `checkToken` parameter and
      the signed token itself is not part of this model. */
  function Token(users: seq<User>, data: TokenData, checkToken: (User, string) -> bool): (r: TokenOutcome)
    ensures r.TokenFieldsInvalid? <==> ValidateTokenFields(data).Err?
    ensures r.UserNotFound? <==> ValidateTokenFields(data).Ok? && !UsernameTaken(users, data.username.value)
    ensures r.TokenIssued? ==>
      && r.user in users && r.user.username == data.username.value
      && checkToken(r.user, data.confirmationCode.value)
    ensures r.CodeIncorrect? ==>
      && r.username == data.username.value
      && exists u :: u in users && u.username == r.username && !checkToken(u, data.confirmationCode.value)
  {
    match ValidateTokenFields(data)
    case Err(errors) => TokenFieldsInvalid(errors)
    case Ok((username, code)) =>
      match FindByUsername(users, username)
      case None => UserNotFound
      case Some(user) =>
        if checkToken(user, code) then TokenIssued(user) else CodeIncorrect(user.username)
  }

  /** With usernames unique, the token view issues a token exactly when
      the named account exists and the code checks out for it. */
  lemma TokenIssuedIff(users: seq<User>, data: TokenData, checkToken: (User, string) -> bool)
    requires UniqueKeys(users) && ValidateTokenFields(data).Ok?
    ensures Token(users, data, checkToken).TokenIssued? <==>
      exists u :: u in users && u.username == data.username.value && checkToken(u, data.confirmationCode.value)
  {
  }

  // -------------------------------------------------------------------- me

  lemma PatchedRowDoesNotClash(rows: seq<User>, k: nat, p: UserPatch, c: UserChanges, role: Role)
    requires UniqueKeys(rows) && k < |rows|
    requires PatchAcceptable(p, rows[k], rows)
    requires c.username == p.username && c.email == p.email
    ensures !ClashesWithOthers(rows, k, SaveChanges(rows[k], c, role))
  {
  }

  /** `UserViewSet.me`. The user view set serves only GET, POST, PATCH
      and DELETE, and the action only GET and PATCH, so every other method
      is answered 405. A PATCH validates the submitted keys and saves them
      with the caller's current role, so no body can change a role; a GET
      returns the caller. Only an accepted PATCH changes the table. */
  method Me(users: UserTable, verb: Verb, caller: User, p: UserPatch) returns (r: Result<User, ApiError>)
    requires users.Valid() && WithinFieldLimits(users.rows) && caller in users.rows
    modifies users
    ensures users.Valid() && WithinFieldLimits(users.rows)
    ensures |users.rows| == |old(users.rows)| && users.nextId == old(users.nextId)
    ensures forall i :: 0 <= i < |users.rows| ==>
      && users.rows[i].role == old(users.rows[i].role)
      && users.rows[i].isSuperuser == old(users.rows[i].isSuperuser)
      && users.rows[i].id == old(users.rows[i].id)
    ensures verb != Get && verb != Patch ==> r == Err(MethodNotAllowed) && users.rows == old(users.rows)
    ensures verb == Get ==> r == Ok(caller) && users.rows == old(users.rows)
    ensures verb == Patch ==>
      var v := ValidateUserPatch(p, caller, old(users.rows));
      && (v.Err? ==> r == Err(InvalidBody(v.error)) && users.rows == old(users.rows))
      && (v.Ok? ==>
            var updated := SaveChanges(caller, v.value, caller.role);
            r == Ok(updated) && users.rows == old(users.rows)[IndexOf(old(users.rows), caller) := updated])
  {
    if verb != Get && verb != Patch {
      return Err(MethodNotAllowed);
    }
    if verb == Get {
      return Ok(caller);
    }
    var v := ValidateUserPatch(p, caller, users.rows);
    if v.Err? {
      return Err(InvalidBody(v.error));
    }
    var k := IndexOf(users.rows, caller);
    var updated := SaveChanges(caller, v.value, caller.role);
    PatchedRowDoesNotClash(users.rows, k, p, v.value, caller.role);
    ghost var before := users.rows;
    var saved := users.Save(k, updated);
    forall u | u in users.rows
      ensures |u.email| <= EmailMaxLength && |u.bio| <= BioMaxLength && |u.username| <= UsernameMaxLength
    {
      var i :| 0 <= i < |users.rows| && users.rows[i] == u;
      assert before[i] in before;
    }
    return Ok(updated);
  }

  // --------------------------------------------------------------- titles

  predicate IsPrefix(prefix: string, s: string)
  {
    |prefix| <= |s| && s[..|prefix|] == prefix
  }

  /** `name__contains`: a case-sensitive substring test. */
  predicate Contains(s: string, sub: string)
    decreases |s|
  {
    IsPrefix(sub, s) || (s != [] && Contains(s[1..], sub))
  }

  /** `sub` occurs in `s` starting at offset `i`. */
  predicate OccursAt(s: string, sub: string, i: int)
  {
    0 <= i <= |s| - |sub| && s[i..i + |sub|] == sub
  }

  /** `Contains` agrees with the direct reading: `sub` occurs at some offset of `s`. */
  lemma {:induction false} ContainsIffOccurs(s: string, sub: string)
    ensures Contains(s, sub) <==> exists i :: OccursAt(s, sub, i)
    decreases |s|
  {
    if IsPrefix(sub, s) {
      assert OccursAt(s, sub, 0);
    } else if s == [] {
    } else {
      ContainsIffOccurs(s[1..], sub);
      if i :| OccursAt(s, sub, i) {
        assert i != 0;
        assert s[1..][i - 1..i - 1 + |sub|] == s[i..i + |sub|];
        assert OccursAt(s[1..], sub, i - 1);
      }
      if i :| OccursAt(s[1..], sub, i) {
        assert s[i + 1..i + 1 + |sub|] == s[1..][i..i + |sub|];
        assert OccursAt(s, sub, i + 1);
      }
    }
  }

  lemma EverythingContainsEmpty(s: string)
    ensures Contains(s, "")
  {
  }

  predicate SortedById(titles: seq<Title>)
  {
    forall i, j :: 0 <= i < j < |titles| ==> titles[i].id < titles[j].id
  }

  /** `filter(name__contains=name)` over a listing: keeps the titles whose
      name contains `name`. */
  function FilterByName(titles: seq<Title>, name: string): (r: seq<Title>)
    ensures forall t :: t in r <==> t in titles && Contains(t.name, name)
  {
    if titles == [] then []
    else if Contains(titles[0].name, name) then [titles[0]] + FilterByName(titles[1..], name)
    else FilterByName(titles[1..], name)
  }

  /** The filter keeps the order it was given: a listing in key order stays in key order. */
  lemma {:induction false} FilterByNameKeepsOrder(titles: seq<Title>, name: string)
    requires SortedById(titles)
    ensures SortedById(FilterByName(titles, name))
  {
    if titles != [] {
      var tail := titles[1..];
      assert SortedById(tail) by {
        forall i, j | 0 <= i < j < |tail| ensures tail[i].id < tail[j].id {
          assert tail[i] == titles[i + 1] && tail[j] == titles[j + 1];
        }
      }
      FilterByNameKeepsOrder(tail, name);
      var rest := FilterByName(tail, name);
      forall t | t in rest ensures titles[0].id < t.id {
        var i :| 0 <= i < |tail| && tail[i] == t;
        assert titles[i + 1] == t;
      }
      if Contains(titles[0].name, name) {
        var r := [titles[0]] + rest;
        forall i, j | 0 <= i < j < |r| ensures r[i].id < r[j].id {
          if i > 0 {
            assert r[i] == rest[i - 1] && r[j] == rest[j - 1];
          } else {
            assert r[j] in rest;
          }
        }
      }
    }
  }

  /** `TitleViewSet.get_queryset` without the rating: the titles in key
      order, narrowed by the `name` query parameter when it is given and
      not empty. */
  function TitleQueryset(titles: seq<Title>, name: Option<string>): (r: seq<Title>)
    ensures name.None? || name.value == "" ==> r == titles
    ensures name.Some? && name.value != "" ==> forall t :: t in r <==> t in titles && Contains(t.name, name.value)
    ensures SortedById(titles) ==> SortedById(r)
  {
    if name.Some? && name.value != "" then
      assert SortedById(titles) ==> SortedById(FilterByName(titles, name.value)) by {
        if SortedById(titles) {
          FilterByNameKeepsOrder(titles, name.value);
        }
      }
      FilterByName(titles, name.value)
    else titles
  }

  /** Filtering by the empty string would keep every title too, so skipping
      the filter for an empty `name` changes which titles are listed in no way. */
  lemma {:induction false} EmptyNameKeepsAll(titles: seq<Title>)
    ensures FilterByName(titles, "") == titles
  {
    if titles != [] {
      EmptyNameKeepsAll(titles[1..]);
      EverythingContainsEmpty(titles[0].name);
    }
  }

  /** The two title serializers. */
  datatype TitleSerializerClass = TitleReadSerializer | TitleWriteSerializer

  /** `TitleViewSet.get_serializer_class`: the read serializer for GET only. */
  function TitleSerializerFor(verb: Verb): (s: TitleSerializerClass)
    ensures s == TitleReadSerializer <==> verb == Get
    ensures !IsSafe(verb) ==> s == TitleWriteSerializer
  {
    if verb == Get then TitleReadSerializer else TitleWriteSerializer
  }

  // ------------------------------------------------------ reviews, comments

  /** `ReviewViewSet.get_queryset`: the title named in the path, or 404,
      then that title's reviews in key order. */
  function ReviewQueryset(titles: seq<Title>, reviews: seq<Review>, titleId: nat): (r: Result<seq<Review>, ApiError>)
    ensures r.Err? <==> FindTitle(titles, titleId).None?
    ensures r.Err? ==> r.error == NotFound
    ensures r.Ok? ==> forall v :: v in r.value <==> v in reviews && v.title == titleId
    ensures r.Ok? && ReviewKeysAscending(reviews) ==> ReviewKeysAscending(r.value)
  {
    match FindTitle(titles, titleId)
    case None => Err(NotFound)
    case Some(title) =>
      assert ReviewKeysAscending(reviews) ==> ReviewKeysAscending(ReviewsOfTitle(reviews, title.id)) by {
        if ReviewKeysAscending(reviews) {
          ReviewsOfTitleKeepsOrder(reviews, title.id);
        }
      }
      Ok(ReviewsOfTitle(reviews, title.id))
  }

  /** `CommentViewSet.get_queryset`: the review named in the path, or 404,
      then that review's comments in key order; the title in the path is
      not checked. */
  function CommentQueryset(reviews: seq<Review>, comments: seq<Comment>, reviewId: nat): (r: Result<seq<Comment>, ApiError>)
    ensures r.Err? <==> FindReview(reviews, reviewId).None?
    ensures r.Err? ==> r.error == NotFound
    ensures r.Ok? ==> forall c :: c in r.value <==> c in comments && c.review == reviewId
    ensures r.Ok? && CommentKeysAscending(comments) ==> CommentKeysAscending(r.value)
  {
    match FindReview(reviews, reviewId)
    case None => Err(NotFound)
    case Some(review) =>
      assert CommentKeysAscending(comments) ==> CommentKeysAscending(CommentsOfReview(comments, review.id)) by {
        if CommentKeysAscending(comments) {
          CommentsOfReviewKeepsOrder(comments, review.id);
        }
      }
      Ok(CommentsOfReview(comments, review.id))
  }

  /** POST to a title's reviews: the serializer's field checks, then
      `perform_create`, which looks the title up (404 if absent) and saves
      with the caller as author; the serializer's `create` then refuses a
      second review by that author of that title. */
  method PostReview(reviews: ReviewTable, titles: seq<Title>, author: User, titleId: nat, data: ReviewData)
    returns (r: Result<Review, ApiError>)
    requires reviews.Valid()
    modifies reviews
    ensures reviews.Valid()
    ensures OneReviewPerAuthorAndTitle(old(reviews.rows)) ==> OneReviewPerAuthorAndTitle(reviews.rows)
    ensures r.Ok? <==>
      && ReviewBodyErrors(data) == []
      && FindTitle(titles, titleId).Some?
      && !HasReview(old(reviews.rows), author.id, titleId)
    ensures r.Ok? ==>
      && r.value == Review(old(reviews.nextId), titleId, author.id, data.text.value, data.score.value)
      && reviews.rows == old(reviews.rows) + [r.value]
    ensures r.Err? ==> reviews.rows == old(reviews.rows)
    ensures (r.Err? && r.error.InvalidBody?) <==> ReviewBodyErrors(data) != []
    ensures r == Err(NotFound) <==> ReviewBodyErrors(data) == [] && FindTitle(titles, titleId).None?
    ensures r == Err(Rejected(DuplicateReview)) <==>
      && ReviewBodyErrors(data) == []
      && FindTitle(titles, titleId).Some?
      && HasReview(old(reviews.rows), author.id, titleId)
  {
    var errors := ReviewBodyErrors(data);
    if errors != [] {
      return Err(InvalidBody(errors));
    }
    var title := FindTitle(titles, titleId);
    if title.None? {
      return Err(NotFound);
    }
    var created := CreateReview(reviews, author.id, title.value.id, data.text.value, data.score.value);
    if created.Err? {
      return Err(Rejected(created.error));
    }
    return Ok(created.value);
  }

  /** POST to a review's comments: the serializer's field check of `text`,
      then `perform_create`, which looks the review up by its key alone
      (404 if absent; the title in the path is not checked) and saves with
      the caller as author. */
  method PostComment(comments: CommentTable, reviews: seq<Review>, author: User, reviewId: nat, text: Option<string>)
    returns (r: Result<Comment, ApiError>)
    requires comments.Valid()
    modifies comments
    ensures comments.Valid()
    ensures r.Ok? <==> CommentBodyErrors(text) == [] && FindReview(reviews, reviewId).Some?
    ensures r.Ok? ==>
      && r.value == Comment(old(comments.nextId), reviewId, author.id, text.value)
      && comments.rows == old(comments.rows) + [r.value]
    ensures r.Err? ==> comments.rows == old(comments.rows)
    ensures (r.Err? && r.error.InvalidBody?) <==> CommentBodyErrors(text) != []
    ensures r == Err(NotFound) <==> CommentBodyErrors(text) == [] && FindReview(reviews, reviewId).None?
  {
    var errors := CommentBodyErrors(text);
    if errors != [] {
      return Err(InvalidBody(errors));
    }
    var review := FindReview(reviews, reviewId);
    if review.None? {
      return Err(NotFound);
    }
    var comment := comments.Insert(review.value.id, author.id, text.value);
    return Ok(comment);
  }
}
