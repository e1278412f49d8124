/** The request rules every controller shares: the permission check that decides from the
    HTTP method, the caller and the record's author whether a request may go on; the
    pagination decorator that normalises `page` and `limit`; and the decorator that fills in
    and checks the author of a request body. */
module Controller {
  import opened Js

  /** http-status UNAUTHORIZED and FORBIDDEN. */
  const Unauthorized := 401
  const Forbidden := 403

  const DefaultPage := 1
  const DefaultLimit := 50

  /** The authenticated caller (`req.user`): its id, its role, and whether it counts as an
      administrator for the permission check. The role and the admin flag are inputs: the
      signed token carries neither, and no `isAdmin()` method exists to compute the flag. */
  datatype Caller = Caller(id: string, role: Option<string>, isAdmin: bool)

  /** How the permission check ends: `next()`, `next(error)`, or an exception that rejects
      the handler's promise without calling `next` at all. */
  datatype Verdict = Next | Refused(error: HttpError) | Thrown(message: string)

  /** `checkPermissions(getRecord)` applied to a request with method `verb`, caller `user`
      and, for a record `getRecord` returns, the id of its author (`None` when the record has
      no author). */
  function CheckPermissions(verb: string, user: Option<Caller>, author: Option<string>): (v: Verdict)
    ensures v.Refused? ==> v.error == HttpError("", Unauthorized)
    ensures LowerAscii(verb) == "get" ==> v == Next
    ensures LowerAscii(verb) == "put" || LowerAscii(verb) == "delete" ==>
      && (v == Next <==> user.Some? && author.Some? && (author.value == user.value.id || user.value.isAdmin))
      && (v.Thrown? <==> user.Some? && author.None?)
    ensures LowerAscii(verb) == "post" ==> (v == Next <==> user.Some?) && !v.Thrown?
    ensures LowerAscii(verb) !in {"get", "put", "delete", "post"} ==>
      (v == Next <==> user.Some? && user.value.isAdmin) && !v.Thrown?
  {
    var denied := Refused(HttpError("", Unauthorized));
    match LowerAscii(verb)
    case "get" => Next
    case "put" => OwnerOrAdmin(user, author, denied)
    case "delete" => OwnerOrAdmin(user, author, denied)
    case "post" => if user.Some? then Next else denied
    case _ => if user.Some? && user.value.isAdmin then Next else denied
  }

  /** `req.user && (r.author.id === req.user.id || req.user.isAdmin())`: reading the author's
      id throws when the record has no author. */
  function OwnerOrAdmin(user: Option<Caller>, author: Option<string>, denied: Verdict): Verdict {
    if user.None? then denied
    else if author.None? then Thrown(TypeErrorMessage)
    else if author.value == user.value.id || user.value.isAdmin then Next
    else denied
  }

  /** The method name is compared after lowercasing, so its case never matters. */
  lemma CheckPermissionsIgnoresCase(verb: string, user: Option<Caller>, author: Option<string>)
    ensures CheckPermissions(verb, user, author) == CheckPermissions(LowerAscii(verb), user, author)
  {
    LowerAsciiIdempotent(verb);
  }

  /** The unary `+x` on a query value; `None` is `NaN`. Arrays and objects are `NaN` here. */
  function NumberOf(x: Json): Option<int> {
    match x
    case JNull => Some(0)
    case JBool(b) => Some(if b then 1 else 0)
    case JNum(n) => Some(n)
    case JStr(s) => ToNumber(s)
    case _ => None
  }

  /** `Math.max(1, n) || fallback`: `NaN` falls back, anything else is at least 1. */
  function AtLeastOne(n: Option<int>, fallback: nat): (r: int)
    requires fallback >= 1
    ensures r >= 1
    ensures n.None? ==> r == fallback
    ensures n.Some? ==> r == if n.value < 1 then 1 else n.value
  {
    match n
    case None => fallback
    case Some(v) => if v < 1 then 1 else v
  }

  /** `query[key]`, or `undefined` when the key is absent. */
  function Param(query: map<string, Json>, key: string): Json {
    if key in query then query[key] else JUndefined
  }

  /** The query `PaginationParams` hands on: `page` and `limit` made numbers of at least 1
      (an absent or non-numeric page is 1, an absent or non-numeric limit is 50), every other
      key as it was. */
  function Paginated(query: map<string, Json>): (r: map<string, Json>)
    ensures r.Keys == query.Keys + {"page", "limit"}
    ensures r["page"].JNum? && r["page"].n >= 1 && r["limit"].JNum? && r["limit"].n >= 1
    ensures NumberOf(Param(query, "page")).None? ==> r["page"] == JNum(DefaultPage)
    ensures NumberOf(Param(query, "limit")).None? ==> r["limit"] == JNum(DefaultLimit)
    ensures forall k :: k in query && k != "page" && k != "limit" ==> r[k] == query[k]
  {
    var page := AtLeastOne(NumberOf(Param(query, "page")), DefaultPage);
    var limit := AtLeastOne(NumberOf(Param(query, "limit")), DefaultLimit);
    query["page" := JNum(page)]["limit" := JNum(limit)]
  }

  /** A page or limit given as the numeral of a positive number is read as that number. */
  lemma PaginatedNumerals(query: map<string, Json>, page: nat, limit: nat)
    requires page >= 1 && limit >= 1
    requires Param(query, "page") == JStr(Decimal(page)) && Param(query, "limit") == JStr(Decimal(limit))
    ensures Paginated(query)["page"] == JNum(page) && Paginated(query)["limit"] == JNum(limit)
  {
    DecimalToNumber(page);
    DecimalToNumber(limit);
  }

  /** Normalising twice is normalising once. */
  lemma PaginatedIdempotent(query: map<string, Json>)
    ensures Paginated(Paginated(query)) == Paginated(query)
  {
    var once := Paginated(query);
    assert NumberOf(Param(once, "page")) == Some(once["page"].n);
    assert NumberOf(Param(once, "limit")) == Some(once["limit"].n);
  }

  /** How `ValidateAuthor` ends: the decorated handler runs, or `next` gets an error. */
  datatype Gate = Proceed | Refuse(error: HttpError)

  /** `User.findById(id)`: the stored user with that id (only its id matters here), or `null`. */
  function FoundUser(users: set<string>, id: string): Json {
    if id in users then JObj(map["id" := JStr(id)]) else JNull
  }

  /** `req.body.author`. */
  function AuthorOf(body: map<string, Json>): Json {
    Param(body, "author")
  }

  /** `ValidateAuthor` on a body, a caller and the stored users: the new body and how the
      request goes on. A missing author is filled with the caller's stored user; the request
      proceeds when the caller is an admin or the author's id is the caller's id; every
      failure, including an exception, is refused with status 403. */
  function AuthorCheck(body: map<string, Json>, user: Option<Caller>, users: set<string>): (r: (map<string, Json>, Gate))
    ensures r.1.Refuse? ==> r.1.error.status == Forbidden
    ensures r.1 == Proceed <==>
      user.Some? && (user.value.role == Some("admin") || Get(AuthorOf(r.0), "id") == JStr(user.value.id))
    ensures Truthy(AuthorOf(body)) || user.None? ==> r.0 == body
    ensures !Truthy(AuthorOf(body)) && user.Some? ==> r.0 == body["author" := FoundUser(users, user.value.id)]
    ensures user.Some? && user.value.role != Some("admin") && Truthy(AuthorOf(r.0))
            && Get(AuthorOf(r.0), "id") != JStr(user.value.id) ==>
      r.1 == Refuse(HttpError("Invalid author.", Forbidden))
  {
    if user.None? then (body, Refuse(HttpError(TypeErrorMessage, Forbidden)))
    else
      var filled := if Truthy(AuthorOf(body)) then body else body["author" := FoundUser(users, user.value.id)];
      var author := AuthorOf(filled);
      if user.value.role == Some("admin") then (filled, Proceed)
      else if author == JUndefined || author == JNull then (filled, Refuse(HttpError(TypeErrorMessage, Forbidden)))
      else if Get(author, "id") == JStr(user.value.id) then (filled, Proceed)
      else (filled, Refuse(HttpError("Invalid author.", Forbidden)))
  }

  /** A caller who is a stored user and sends no author becomes the author and proceeds. */
  lemma AuthorFilledProceeds(body: map<string, Json>, user: Caller, users: set<string>)
    requires user.id in users && !Truthy(AuthorOf(body))
    ensures AuthorCheck(body, Some(user), users) == (body["author" := JObj(map["id" := JStr(user.id)])], Proceed)
  {
  }

  /** The parts of an Express request the decorators read and reassign. */
  class Request {
    var query: map<string, Json>
    var body: map<string, Json>
    var user: Option<Caller>

    constructor (query: map<string, Json>, body: map<string, Json>, user: Option<Caller>)
      ensures this.query == query && this.body == body && this.user == user
    {
      this.query, this.body, this.user := query, body, user;
    }

    /** The `PaginationParams` decorator: `req.query` is reassigned before the handler runs. */
    method PaginationParams()
      modifies this
      ensures query == Paginated(old(query)) && body == old(body) && user == old(user)
    {
      var page := AtLeastOne(NumberOf(Param(query, "page")), DefaultPage);
      var limit := AtLeastOne(NumberOf(Param(query, "limit")), DefaultLimit);
      query := query["page" := JNum(page)]["limit" := JNum(limit)];
    }

    /** The `ValidateAuthor` decorator: fills in `req.body.author` when it is falsy, then
        checks it. */
    method ValidateAuthor(users: set<string>) returns (g: Gate)
      modifies this
      ensures (body, g) == AuthorCheck(old(body), old(user), users)
      ensures query == old(query) && user == old(user)
    {
      if !Truthy(AuthorOf(body)) {
        if user.None? {
          return Refuse(HttpError(TypeErrorMessage, Forbidden));
        }
        body := body["author" := FoundUser(users, user.value.id)];
      }
      if user.None? {
        return Refuse(HttpError(TypeErrorMessage, Forbidden));
      }
      var author := AuthorOf(body);
      if user.value.role == Some("admin") {
        g := Proceed;
      } else if author == JUndefined || author == JNull {
        g := Refuse(HttpError(TypeErrorMessage, Forbidden));
      } else if Get(author, "id") == JStr(user.value.id) {
        g := Proceed;
      } else {
        g := Refuse(HttpError("Invalid author.", Forbidden));
      }
    }
  }
}
