/** The request permission predicates of the API and the framework's way
    of combining them with `|`. Each predicate looks only at the request's
    HTTP method and its user; the view it is asked about is a type
    parameter, so no predicate can depend on it. */
module Permissions {
  import opened Users

  /** The HTTP request methods the framework's views dispatch on. */
  datatype Verb = Get | Head | Options | Post | Put | Patch | Delete | Trace

  /** The framework's `SAFE_METHODS`. */
  predicate IsSafe(verb: Verb)
  {
    verb in {Get, Head, Options}
  }

  /** `request.user`: an anonymous visitor or a signed-in account. Both
      objects are truthy, so `request.user and ...` never stops on the first operand. */
  datatype Requester = Anonymous | SignedIn(user: User)

  datatype Request = Request(verb: Verb, requester: Requester)

  /** `IsAdminPermission.has_permission` */
  function IsAdminPermission<V>(request: Request, view: V): (granted: bool)
    ensures granted <==>
      request.requester.SignedIn? &&
      (request.requester.user.role == AdminRole || request.requester.user.isSuperuser)
  {
    request.requester.SignedIn? && IsAdmin(request.requester.user)
  }

  /** `IsModeratorPermission.has_permission` */
  function IsModeratorPermission<V>(request: Request, view: V): (granted: bool)
    ensures granted <==> request.requester.SignedIn? && request.requester.user.role == ModeratorRole
  {
    request.requester.SignedIn? && IsModerator(request.requester.user)
  }

  /** `IsOwnerPermission.has_permission`: despite its name it never looks
      at who owns anything. */
  function IsOwnerPermission<V>(request: Request, view: V): (granted: bool)
    ensures IsSafe(request.verb) ==> granted
    ensures !IsSafe(request.verb) ==> (granted <==> request.requester.SignedIn?)
  {
    if IsSafe(request.verb) then true else request.requester.SignedIn?
  }

  /** `ReadOnlyPermission.has_permission` */
  function ReadOnlyPermission<V>(request: Request, view: V): (granted: bool)
    ensures granted <==>
      !(request.verb.Post? || request.verb.Put? || request.verb.Patch? || request.verb.Delete? || request.verb.Trace?)
  {
    IsSafe(request.verb)
  }

  /** `ReadOnlyPermission` gives the same answer to every requester. */
  lemma ReadOnlyIgnoresRequester<V>(verb: Verb, a: Requester, b: Requester, view: V)
    ensures ReadOnlyPermission(Request(verb, a), view) == ReadOnlyPermission(Request(verb, b), view)
  {
  }

  /** A permission class as it appears in a view's `permission_classes`:
      one of the four above, one of the framework's `IsAuthenticated` and
      `AllowAny`, or the `|` of two classes. */
  datatype PermissionClass =
    | AdminOnly
    | ModeratorOnly
    | Owner
    | ReadOnly
    | Authenticated
    | AllowAny
    | Or(left: PermissionClass, right: PermissionClass)

  /** `has_permission` of a permission class; the framework's `|` grants
      when either operand grants. Whatever the combination, a grant is for
      a safe method, for a signed-in requester, or comes from `AllowAny`. */
  function HasPermission<V>(p: PermissionClass, request: Request, view: V): (granted: bool)
    ensures p.Or? ==>
      (granted <==> HasPermission(p.left, request, view) || HasPermission(p.right, request, view))
    ensures granted ==> IsSafe(request.verb) || request.requester.SignedIn? || MentionsAllowAny(p)
  {
    match p
    case AdminOnly => IsAdminPermission(request, view)
    case ModeratorOnly => IsModeratorPermission(request, view)
    case Owner => IsOwnerPermission(request, view)
    case ReadOnly => ReadOnlyPermission(request, view)
    case Authenticated => request.requester.SignedIn?
    case AllowAny => true
    case Or(l, r) => HasPermission(l, request, view) || HasPermission(r, request, view)
  }

  /** Whether `AllowAny` occurs anywhere in a class. */
  predicate MentionsAllowAny(p: PermissionClass)
  {
    match p
    case AllowAny => true
    case Or(l, r) => MentionsAllowAny(l) || MentionsAllowAny(r)
    case _ => false
  }

  /** No class built without `AllowAny` lets an anonymous request use an
      unsafe method, however its parts are combined with `|`. A corollary of
      the second postcondition of `HasPermission`, which its recursive calls
      establish class by class. */
  lemma NoAnonymousUnsafeGrant<V>(p: PermissionClass, verb: Verb, view: V)
    requires !MentionsAllowAny(p) && !IsSafe(verb)
    ensures !HasPermission(p, Request(verb, Anonymous), view)
  {
  }

  /** The answer of a class does not change when it is asked about another view. */
  lemma {:induction false} ViewIndependent<V, W>(p: PermissionClass, request: Request, v: V, w: W)
    ensures HasPermission(p, request, v) == HasPermission(p, request, w)
  {
    match p
    case Or(l, r) =>
      ViewIndependent(l, request, v, w);
      ViewIndependent(r, request, v, w);
    case _ =>
  }
}
