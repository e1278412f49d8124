/** The tag controller's `post` handler: after `ValidateAuthor`, the body is cut down to its
    text and author, a dot-prefixed text is refused to non-admins, and the tag is added to
    the target document; every error the handler catches leaves with status 400. */
module TagController {
  import opened Js
  import Controller
  import Tags

  /** http-status BAD_REQUEST. */
  const BadRequest := 400
  const ReservedMessage := "Reserved tag!"

  /** `_.pick(body, "text", "author")`. */
  function Picked(body: map<string, Json>): (r: map<string, Json>)
    ensures r.Keys == body.Keys * {"text", "author"}
    ensures forall k :: k in r ==> r[k] == body[k]
  {
    map k | k in body.Keys * {"text", "author"} :: body[k]
  }

  /** Whether a text names a reserved tag: it starts with a dot. */
  predicate ReservedText(s: string) {
    |s| > 0 && s[0] == '.'
  }

  /** `if (text && text.startsWith(".") && role != "admin") throw ...`: a non-string truthy
      text has no `startsWith` and throws a TypeError. */
  function Screen(text: Json, role: Option<string>): (r: Outcome<string>)
    ensures text.JStr? && ReservedText(text.s) && role != Some("admin") ==> r == Fail(ReservedMessage)
    ensures text.JStr? && (!ReservedText(text.s) || role == Some("admin")) ==> r == Pass
    ensures !Truthy(text) ==> r == Pass
    ensures Truthy(text) && !text.JStr? ==> r == Fail(TypeErrorMessage)
  {
    if !Truthy(text) then Pass
    else if !text.JStr? then Fail(TypeErrorMessage)
    else if ReservedText(text.s) && role != Some("admin") then Fail(ReservedMessage)
    else Pass
  }

  /** The tag `tag(req.body)` receives from a screened body: a string text or none. */
  function InputOf(body: map<string, Json>): (t: Tags.TagInput)
    ensures t.slug.None?
    ensures "text" in body && body["text"].JStr? ==> t.text == Some(body["text"].s)
  {
    var text := Controller.Param(body, "text");
    Tags.TagInput(if text.JStr? then Some(text.s) else None, None, Controller.Param(body, "author"))
  }

  /** The body never carries a slug to `tag`, whatever the client sent. */
  lemma PickedDropsSlug(body: map<string, Json>)
    ensures "slug" !in Picked(body) && InputOf(Picked(body)).slug.None?
  {
  }

  /** How the request ends: the tag list is sent (the source sends the saved parent
      document), or `next` gets an error. */
  datatype Response = Sent(tags: seq<Tags.Tag>) | Failed(error: HttpError)

  /** `post(req, res, next)`, decorated with `ValidateAuthor`: `users` are the stored user
      ids, `id` the new subdocument's id and `slugger` the slug library. */
  method Post(req: Controller.Request, target: Tags.Taggable, users: set<string>, id: string, slugger: string -> string)
    returns (res: Response)
    requires target.Valid()
    modifies req, target
    ensures target.Valid()
    ensures var (body, gate) := Controller.AuthorCheck(old(req.body), old(req.user), users);
      && (gate.Refuse? ==> res == Failed(gate.error) && target.tags == old(target.tags))
      && (gate == Controller.Proceed ==>
            && req.body == Picked(body) && req.user == old(req.user) && req.user.Some?
            && var screened := Screen(Controller.Param(req.body, "text"), req.user.value.role);
            && (screened.Fail? ==> res == Failed(HttpError(screened.error, BadRequest)) && target.tags == old(target.tags))
            && var u := Tags.WithSlug(Tags.Cast(InputOf(req.body), id), slugger);
            && (screened == Pass && !Tags.AnyClash(old(target.tags), u) && Tags.ValidTag(u) ==>
                  res == Sent(target.tags) && target.tags == old(target.tags) + [u])
            && (screened == Pass && (Tags.AnyClash(old(target.tags), u) || !Tags.ValidTag(u)) ==>
                  res.Failed? && res.error.status == BadRequest && target.tags == old(target.tags)))
    ensures res.Failed? ==> res.error.status == BadRequest || res.error.status == Controller.Forbidden
  {
    var gate := req.ValidateAuthor(users);
    if gate.Refuse? {
      return Failed(gate.error);
    }
    req.body := Picked(req.body);
    var screened := Screen(Controller.Param(req.body, "text"), req.user.value.role);
    if screened.Fail? {
      return Failed(HttpError(screened.error, BadRequest));
    }
    var tagged := target.Tag(InputOf(req.body), id, slugger);
    if tagged.Fail? {
      return Failed(HttpError(tagged.error, BadRequest));
    }
    res := Sent(target.tags);
  }
}
