# larry, modelled in Dafny

larry is the back end of an upload site. Users publish uploads, comment on them, tag them and
vote on comments. This project models the rules at the core of that back end. The modules are:

- **Voting** (`voting.dfy`): the voting concern.
  - The Vote collection, with its unique index on (author, document).
  - The save and remove hooks that move a votable document's `voting.sum`.
  - The `vote` method, which checks the impact against a per-type policy, removes the caller's
    earlier votes on the document and creates one new vote.
  - The database is one `VoteStore` object. Its invariant is that every document's sum equals
    the total impact of the votes that refer to it.
- **Comment** (`comment.dfy`): the impact policy comments register (only -1 and +1) and the
  `toObject` transform of a comment.
- **Controller** (`controller.dfy`): the shared request rules.
  - The permission table of `checkPermissions`.
  - The `PaginationParams` normalisation of `page` and `limit`.
  - The `ValidateAuthor` author/admin check.
- **Uploads** (`upload.dfy`): the upload model.
  - `paginate` arithmetic.
  - Slug defaulting on validation.
  - The favourite count.
- **Tags** (`tag.dfy`): the tag model and the taggable plugin.
  - Text rules.
  - Slug defaulting.
  - The `toObject` pick.
  - `tag`, which appends a tag only when no existing tag has its slug or text.
- **TagController** (`tag_controller.dfy`): the `post` handler for tags.
  - The body filter.
  - The reserved dot-prefix rule.
  - The status of every error it catches.
- **Users** (`user.dfy`): the user model.
  - The username and email rules.
  - The public JSON projection.
  - The favourites list and its `favorite`, `unfavorite` and `isFavorite` operations.
- **Auth** (`auth.dfy`): how a token is read from the `Authorization` header.
  - The `Bearer` scheme of section 2.1 of RFC 6750, plus a non-standard `Token` scheme.
  - The scheme is matched case-sensitively, although section 2.1 of RFC 7235 makes scheme
    names case-insensitive.
- **Links** and **Resources** (`link.dfy`, `resource.dfy`): the hypermedia resources the routes
  send.
  - The link record.
  - The `_links` object.
  - The title taken from the `self` link.
  - The `toJSON` indentation.
  - The plain objects of a document resource and a collection resource.
- **Js** (`js.dfy`): the small part of JavaScript the other modules rely on.
  - Optional values and results.
  - A JSON-like value type with truthiness.
  - ASCII lowercasing.
  - White space as `\s` sees it.
  - `Number()` and `parseInt` on integer inputs.

Where the source updates state in place, the model does too:

- `VoteStore`, `User`, `Upload`, `Taggable`, `Link`, `Request`, `PlainObject`,
  `DocumentResource` and `CollectionResource` are classes.
- Their methods state the new state in terms of pure functions.
- The properties are proved about those functions.

Parameters stand in for the database and for outside libraries:

- The ids that exist.
- The next record id.
- The slug library.
- Each document's own `toObject()` output.
- The order `sort` gives.

## Model

| member | source | states |
|---|---|---|
| Voting.DefaultPolicy | src/concerns/Voting.ts:100-101 | Without options the plugin accepts every impact, and the error message is empty. |
| Voting.ImpactOf | src/concerns/Voting.ts:112 | An omitted impact counts as 1; a given impact is used as it is. |
| Voting.VotesByMembers | src/concerns/Voting.ts:114 | `Vote.find({author, "ref.document"})` returns exactly the votes with that author and document. |
| Voting.WithoutKeyMembers | src/concerns/Voting.ts:119 | Removing every found vote keeps exactly the votes with a different (author, document) key. |
| Voting.AtMostOne | src/concerns/Voting.ts:38 | Under the unique index, `find` returns at most one vote per author and document. |
| Voting.UniqueKeysWithout | src/concerns/Voting.ts:38 | Deleting a record keeps the unique index satisfied. |
| Voting.TotalImpactWithout | src/concerns/Voting.ts:64-87 | Deleting one record takes exactly its impact off its own document's total and leaves every other document's total unchanged. |
| Voting.WithoutFound | src/concerns/Voting.ts:114-119 | Under the unique index, deleting the vote `find` returned deletes every vote of that author on that document. |
| Voting.BalancedAfterSave | src/concerns/Voting.ts:40-62 | The save hook's `+impact` keeps every document's sum equal to the total impact of its votes. |
| Voting.BalancedAfterRemove | src/concerns/Voting.ts:64-87 | The remove hook's `-impact` keeps every document's sum equal to the total impact of its votes. |
| Voting.FoundVotes | src/concerns/Voting.ts:114-120 | Removing what `find` returned either changes nothing or removes the single earlier vote and its impact. Afterwards no vote of that author on that document is left. |
| Voting.RemoveUndoesSave | src/concerns/Voting.ts:40-87 | Removing a freshly saved vote restores the collection, and the save added exactly its impact. |
| Voting.RecastSameImpact | src/concerns/Voting.ts:114-135 | Re-casting the impact a user already cast leaves the document's total impact unchanged. |
| Voting.SaveAsWritten | src/concerns/Voting.ts:40-62 | As written, the hook adds the impact before the unique index can refuse the insert. A refused duplicate still moves the sum. |
| Voting.SaveAsWrittenDrifts | src/concerns/Voting.ts:40-62 | With a vote by the same author already there, the as-written save leaves the sum off by the new impact. |
| Voting.SaveAsWrittenExample | src/concerns/Voting.ts:40-62 | Concretely, a second +1 by alice on c1 leaves one record but a sum of 2. |
| Voting.VoteStore.AddDocument | src/concerns/Voting.ts:103-110 | A new votable document's `voting.sum` starts at 0, and the sums stay balanced. |
| Voting.VoteStore.Save | src/concerns/Voting.ts:121-134 | A vote with a fresh key is appended, carrying the author, the model name, the document and the impact. Its impact is added to its document's sum. A duplicate key changes nothing. The invariant is kept. |
| Voting.VoteStore.Remove | src/concerns/Voting.ts:64-87 | A vote is deleted, and its impact is taken off its document's sum. The invariant is kept. |
| Voting.FoundMember | src/concerns/Voting.ts:114 | Every vote `find` returns is in the collection, by that user, on that document. |
| Voting.VoteStore.RemovePrevious | src/concerns/Voting.ts:114-120 | Every vote of the user on the document is gone, and their total impact is taken off the sum. The invariant is kept. |
| Voting.VoteStore.ReplaceVote | src/concerns/Voting.ts:117-134 | Once the earlier votes are removed, the unique index cannot refuse the new vote: it is appended with the next id, and the sum moves by the new impact minus the removed ones. |
| Voting.VoteStore.CastVote | src/concerns/Voting.ts:112-144 | A rejected impact gives the policy's message with status 400 and changes nothing. Otherwise the user's earlier votes on the document are replaced by one new vote, and the sum moves by the new impact minus the old ones. Every sum stays equal to its total impact. |
| Comment.CommentPolicy | src/models/Comment.ts:45-51 | The comment validator accepts exactly -1 and +1, with the message "Vote must be +/- 1". |
| Comment.TransformedFields | src/models/Comment.ts:61-79 | The transform always writes the id string and the timestamps. It writes author and upload ids only for set, unpopulated references. It wraps the body exactly when `options.xml == true`. Every other field is kept. |
| Comment.TransformedIdempotent | src/models/Comment.ts:61-79 | Applying the transform twice is applying it once. |
| Comment.PlainObject.Transform | src/models/Comment.ts:61-79 | The in-place transform leaves the object equal to `Transformed` of its old fields. |
| Controller.CheckPermissions | src/routes/Controller.ts:45-79 | GET always passes. PUT and DELETE pass exactly for the author or an admin, and throw when the record has no author. POST passes exactly with a caller. Other methods pass only for an admin. Every refusal carries status 401. The admin flag is an input; the source's `isAdmin()` call throws instead (see Left out). |
| Controller.CheckPermissionsIgnoresCase | src/routes/Controller.ts:51 | The decision does not depend on the method name's letter case. |
| Controller.AtLeastOne | src/routes/Controller.ts:116 | `Math.max(1, n) \|\| fallback` is at least 1, and NaN gives the fallback. |
| Controller.Paginated | src/routes/Controller.ts:114-116 | `page` and `limit` become numbers of at least 1. A non-numeric page is 1 and a non-numeric limit is 50. Every other key is kept. |
| Controller.PaginatedNumerals | src/routes/Controller.ts:116 | A page or limit sent as the numeral of a positive number is read as that number. |
| Controller.PaginatedIdempotent | src/routes/Controller.ts:114-116 | Normalising twice is normalising once. |
| Controller.AuthorCheck | src/routes/Controller.ts:149-161 | A falsy author is filled with the caller's stored user. The request proceeds exactly when the caller's role is "admin" or the caller's id is the author's id. Every failure has status 403. No token carries a role, so only the id test can pass (see Left out). |
| Controller.AuthorFilledProceeds | src/routes/Controller.ts:151-157 | A stored caller who sends no author becomes the author and proceeds. |
| Controller.Request.PaginationParams | src/routes/Controller.ts:114-118 | `req.query` is replaced by its normalised form; body and user are unchanged. |
| Controller.Request.ValidateAuthor | src/routes/Controller.ts:149-161 | The new body and the outcome are those of `AuthorCheck`. |
| Uploads.Matching | src/models/Upload.ts:108-113 | The matching documents are exactly the documents the query accepts. |
| Uploads.PageCount | src/models/Upload.ts:120 | `pages` is the ceiling of total/limit: enough pages for every document, and no empty last page. |
| Uploads.Window | src/models/Upload.ts:115-116 | `skip(s).limit(l)` yields at most `l` elements, the ones starting at position `s`, and nothing past the end. |
| Uploads.Paginate | src/models/Upload.ts:107-128 | `total` counts every match. `docs` is the window at `(page-1)*limit` of at most `limit` matches. `page` and `limit` are echoed, and `pages` is the ceiling. |
| Uploads.OnItsPage | src/models/Upload.ts:112-120 | Match `i` is entry `i % limit` of page `i / limit + 1`, and that page is within `pages`. |
| Uploads.FavoriteCount | src/models/Upload.ts:82 | The count is at most the number of users, and it is 0 exactly when no user's favourites contain the id. |
| Uploads.FavoriteCountAppend | src/models/Upload.ts:82 | One more user adds 1 to the count exactly when that user's favourites contain the id. |
| Uploads.Upload.SetSlug | src/models/Upload.ts:27-32 | Assigning the slug stores it lowercased. |
| Uploads.Upload.Slugify | src/models/Upload.ts:75-77 | The slug becomes the lowercased slug of the title. |
| Uploads.Upload.Validate | src/models/Upload.ts:67-73 | An empty slug is derived from the title; an existing slug is kept. |
| Uploads.Upload.UpdateFavoriteCount | src/models/Upload.ts:79-86 | `favoritesCount` becomes the number of users whose favourites contain the upload's id. |
| Tags.WithSlug | src/models/Tag.ts:47-53 | The slug is derived from the text exactly when there is a text and no slug; nothing else changes. |
| Tags.AnyClash | src/models/Tag.ts:82 | The check is true exactly when some existing tag has the same slug or the same text. |
| Tags.DistinctAppend | src/models/Tag.ts:80-84 | Appending a tag that clashes with none keeps slugs and texts unique. |
| Tags.ToObject | src/models/Tag.ts:60-64 | Only `_id`, `text` and `slug` are exposed. |
| Tags.TagAsWritten | src/models/Tag.ts:80-85 | As written, a passing `tag` appends the input with its derived slug, and a failing one leaves the list unchanged. |
| Tags.TagAsWrittenDuplicatesSlug | src/models/Tag.ts:80-85 | Tagging "a b" after "a-b" passes and leaves two tags with the slug "a-b". |
| Tags.Taggable.Tag | src/models/Tag.ts:80-85 | A clash fails with "Tag must be unique!". A tag the schema refuses fails validation. In both cases the list is unchanged. Otherwise exactly one tag is appended at the end. No two tags share a slug or a text, and every tag is valid (text of 2 to 32 characters, non-space first character, slug present). |
| TagController.Picked | src/routes/uploads/TagController.ts:23 | The body keeps only `text` and `author`, with their values. |
| TagController.Screen | src/routes/uploads/TagController.ts:25-30 | A dot-prefixed text is refused as reserved unless the caller's role is "admin", a branch no token reaches (see Left out). A falsy text passes. A truthy non-string text throws. |
| TagController.InputOf | src/routes/uploads/TagController.ts:32 | `tag` receives the body's text and never a slug. |
| TagController.PickedDropsSlug | src/routes/uploads/TagController.ts:23 | A slug sent by the client never reaches `tag`. |
| TagController.Post | src/routes/uploads/TagController.ts:20-38 | An author refusal keeps status 403. Otherwise the body is picked and the screen is applied. A success appends the one tag, and every caught error leaves with status 400 and no change. The tag step is the corrected `tag` (see Left out). |
| Users.FieldError | src/models/User.ts:40-55 | An empty value is "can't be blank"; a non-empty value fails with "is invalid" exactly when it does not match. |
| Users.LowerUsername | src/models/User.ts:40-47 | Lowercasing before `match` accepts exactly the usernames it would accept unlowered. |
| Users.LowerEmail | src/models/User.ts:48-55 | Lowercasing before `match` accepts exactly the emails it would accept unlowered. |
| Users.IndexOf | src/models/User.ts:116 | `indexOf` is -1 exactly when the id is absent; otherwise it is the id's first position. |
| Users.Favorited | src/models/User.ts:115-121 | After `favorite` the id is present. The old list is a prefix of the new one, and one entry is added exactly when the id was absent. |
| Users.Unfavorited | src/models/User.ts:123-126 | After `unfavorite` the id is gone and every other favourite stays. |
| Users.UnfavoritedConcat | src/models/User.ts:123-126 | Pulling an id keeps the order of the remaining favourites: pulling from a concatenation pulls from each part in turn. |
| Users.FavoritedKeepsNoDuplicates | src/models/User.ts:115-121 | `favorite` never introduces a duplicate, and repeating it changes nothing. |
| Users.UnfavoriteUndoesFavorite | src/models/User.ts:115-126 | Unfavouring a fresh favourite gives back the list as it was. |
| Users.User.constructor | src/models/User.ts:40-55 | The username and email are stored lowercased. |
| Users.User.Errors | src/models/User.ts:40-55 | The username fails exactly when it is not a non-empty ASCII alphanumeric string. The email fails exactly when it is empty or does not match `\S+@\S+\.\S+`. |
| Users.User.ToJson | src/models/User.ts:63-70 | Only `id` and `username` are exposed. |
| Users.User.IsFavorite | src/models/User.ts:128-132 | True exactly when some favourite has the same string form. |
| Users.User.Favorite | src/models/User.ts:115-121 | The favourites become `Favorited` of the old list, and `IsFavorite` then holds. |
| Users.User.Unfavorite | src/models/User.ts:123-126 | The favourites become `Unfavorited` of the old list, and `IsFavorite` then fails. |
| Auth.Split | src/config/auth.ts:6-8 | `split(" ")` gives at least one field, and no field contains a space. |
| Auth.JoinSplit | src/config/auth.ts:6-8 | Joining the fields with single spaces gives the header back. |
| Auth.SplitJoin | src/config/auth.ts:6-8 | Fields without spaces come back unchanged from their join. |
| Auth.TokenFromHeader | src/config/auth.ts:5-12 | A token is returned exactly when the header is non-empty, its first field is `Token` or `Bearer` (case-sensitively) and a second field exists. The token is that second field. |
| Auth.TokenAfterScheme | src/config/auth.ts:6-8 | `Token x` and `Bearer x` yield `x`, also when more fields follow. |
| Auth.SchemeThenFields | src/config/auth.ts:6-9 | After `Token ` or `Bearer `, the token is the first field of the rest of the header. |
| Auth.OtherSchemeHasNoToken | src/config/auth.ts:6-11 | Any other first word, such as `bearer`, yields no token. |
| Auth.SchemeAloneHasNoToken | src/config/auth.ts:8 | A scheme with no second field yields no token. |
| Links.RelName | src/Link.ts:5-12 | Every relation has a non-empty name. The collection relation, and only it, is spelled "collectiom"; the self relation, and only it, is "self". |
| Links.ParseRel | src/Link.ts:5-12 | A name is read only as the relation it names, including "collectiom". |
| Links.ParseRelName | src/Link.ts:5-12 | Every relation is read back from its name, so no two relations share a name. |
| Links.DataObject | src/Link.ts:37-43 | The object has exactly `rel`, `href` and `title`. The relation can be read back from it. |
| Links.Link.constructor | src/Link.ts:21-22 | The getters return what the constructor was given. |
| Links.Link.ToObject | src/Link.ts:37-43 | `toObject` is the object of the link's current relation, href and title. |
| Links.Link.SetHref | src/Link.ts:25 | Only the href changes, and `toObject` changes only in `href`. |
| Links.Link.SetTitle | src/Link.ts:28 | Only the title changes, and `toObject` changes only in `title`. |
| Links.Link.SetRel | src/Link.ts:31 | Only the relation changes, and `toObject` changes only in `rel`. |
| Resources.Snapshot | src/Resource.ts:38 | A null or undefined entry is the one thing marked missing; every present link is read as it is. |
| Resources.LinksObjectKeys | src/Resource.ts:38-45 | `_links` has one key per relation among the present links, and no other. |
| Resources.LastLinkWins | src/Resource.ts:39-45 | When relations repeat, the later link's `{title, href}` wins. |
| Resources.TitleOf | src/Resource.ts:11-13 | Failing to find a title is a TypeError. |
| Resources.TitleIsFirstSelf | src/Resource.ts:11-13 | The title is the first `self` link's title. It exists exactly when a `self` link is reached without passing a missing entry. |
| Resources.TitleKeptByAppend | src/Resource.ts:11-13 | Links appended after the title was found do not change it. |
| Resources.IndentLevel | src/Resource.ts:27-31 | The indent is 0 exactly when `pretty` is absent. It is 2 when `parseInt` gives NaN or 0, or 2 itself. Any other non-zero `parseInt` value is the indent itself (so "-3" gives -3 and "7px" gives 7). |
| Resources.IndentOfNumeral | src/Resource.ts:30 | A positive numeral is the indentation it writes. |
| Resources.ResourceObject | src/Resource.ts:35-48 | The base object holds only `_links`. |
| Resources.ChildObjects | src/Resource.ts:121 | There is one child object per resource, in order. |
| Resources.DocumentResource.constructor | src/Resource.ts:71-74 | The links start empty and the given links are pushed in order. |
| Resources.DocumentResource.SetLinks | src/Resource.ts:9 | The links setter replaces the list. |
| Resources.DocumentResource.Title | src/Resource.ts:11-13 | The title exists exactly when a first `self` link is reached, and it is that link's title. |
| Resources.DocumentResource.ToObject | src/Resource.ts:79-82 | The document's own fields are copied over `_links`, and `_links` stays only when the document has no such field. |
| Resources.CollectionResource.constructor | src/Resource.ts:101-104 | The links start empty, the given links are pushed in order, and `_meta` is undefined. |
| Resources.CollectionResource.SetLinks | src/Resource.ts:9 | The links setter replaces the list. |
| Resources.CollectionResource.SetMeta | src/Resource.ts:92 | The meta setter replaces `_meta`. |
| Resources.CollectionResource.ToObject | src/Resource.ts:117-127 | The object holds `_links`, `_meta` and the children's objects under the title's key. It fails with a TypeError exactly when the title does. |
| Js.LowerAsciiIdempotent | src/routes/Controller.ts:51 | Lowercasing twice is lowercasing once. |
| Js.DecimalToNumber | src/routes/Controller.ts:116 | `+` reads a decimal numeral as its number. |
| Js.DecimalParseInt | src/Resource.ts:30 | `parseInt` reads a decimal numeral as its number. |

## Left out

- Concurrency:
  - The parallel pre-hooks.
  - The atomic `$inc`.
  - `Promise.all`.
  - The asynchronous database.

  Each hook and each removal is one sequential step.
- A failing `populate` or `update` in the hooks (the `err` branches of `src/concerns/Voting.ts`) is not modelled: the database never fails here.
- Voting.VoteStore.Save: checks the unique index before it applies the save hook. The source applies the hook first; that order is modelled by `Voting.SaveAsWritten` (see Findings).
- Voting.VoteStore.Remove: takes a vote still in the collection. Removing an already-deleted record, which the source would also hook, is not modelled.
- Voting.VoteStore.RemovePrevious: removes the single vote that `find` can return under the unique index, instead of mapping over a list. The removals that `Promise.all` runs concurrently are not modelled.
- Voting.VoteStore.CastVote: the policy is a total function on integers. A validator that throws is not modelled. Plugin options given without `validate`, where `options.validate.validator` throws, are not modelled either.
- Saving the same Vote a second time with `save()` (an update, which re-fires the save hook) is not modelled; no route does it.
- Numbers are integers: fractional, exponent and `Infinity` forms in `Number()` and `parseInt` are treated as NaN, and JavaScript's 53-bit float precision is not modelled.
- Controller.NumberOf: arrays and objects in a query are treated as NaN rather than converted through their string form.
- The caller's role and admin flag are inputs. `req.user` is the decoded token (`src/config/auth.ts:17,22`), and `generateJWT` (`src/models/User.ts:90-94`) signs only `id`, `username` and `exp`.
- Controller.CheckPermissions: the admin flag is an input. In the source `req.user.isAdmin()` is defined nowhere and throws a TypeError. The handler's promise then rejects without calling `next`. This happens for a present caller who is not the author on PUT or DELETE (`src/routes/Controller.ts:58`), and for any present caller on a method other than GET, PUT, DELETE and POST (`src/routes/Controller.ts:72`). In those cases the model's 401 (or `Next` for an admin) assumes an `isAdmin()` that the source lacks.
- Controller.AuthorCheck and TagController.Screen: the `role === "admin"` branch is modelled but unreachable in the source. The token carries no role, and the user schema has no `role` path; only the migration `src/models/migrations/1522778630941-createuser.ts:10` writes one. So an author check passes only on a matching id, and a dot-prefixed tag text is always refused.
- Case folding is ASCII only; non-ASCII letters are not lowercased.
- Strings are sequences of characters; UTF-16 code units are not modelled.
- MongoDB queries, sorting and `populate` are replaced by a filter function, a sequence already in sort order and a set of stored user ids. `ObjectId` values are their hex strings.
- The filled-in author in `ValidateAuthor` carries only its id.
- Uploads.Paginate: requires page and limit of at least 1. The mounted `index` handlers decorated with `@PaginationParams` guarantee this. The unmounted route at `src/routes/api/uploads.ts:22` passes `+_limit` after a validator that allows a limit of 0 (`src/concerns/Validator.ts:45`); that call is not modelled.
- Uploads.Upload.UpdateFavoriteCount: `favoritesCount` is not a schema path, so the source's following `save()` does not persist it. The model only assigns the field.
- The slug library is a parameter (`slugger`). Its own output, and the `rfc3986` mode setting, are not modelled.
- Tags.Taggable.Tag: a failed save leaves the list unchanged. In the source, the in-memory `push` has already happened when `save()` rejects.
- Tags.Taggable.Tag: compares the derived slug, after the validate hook has run. The source compares the input's slug before the hook derives it; that order is modelled by `Tags.TagAsWritten` (see Findings).
- Users.User.ToJson: assumes that `ret.id` in the transform is the hex id, as with the virtual `id` getter. The schema sets no `virtuals: true` for `toJSON`, so depending on the Mongoose version the response may carry only `username`.
- TagController.Post: composes the corrected `Tags.Taggable.Tag`, so a slug clash is refused with status 400. In the source the clash goes undetected, the tag is pushed and the response is 200. Post also sends the tag list, where the source sends the whole saved parent document.
- Tags.ValidText: the schema validators run only on a string text. A falsy non-string text is treated as the empty text.
- The comment `toObject` transform takes the timestamps already as ISO strings; `Date` is not modelled.
- `JSON.stringify`, `xmlify` and every `toXml` are not modelled: the model stops at the plain objects and the indentation level.
- `ErrorResource` is not modelled. Its `toJSON` and `toXml` return the empty string and build nothing.
- `DocumentResource.children` is not modelled: its getter and setter are never read by `toObject` or `toXml`.
- Password hashing, JWT signing and the unique-value validator plugin of the User model are not modelled.

## Findings

| source | as written | input that shows it | evidently intended | confidence | as-written member | corrected member |
|---|---|---|---|---|---|---|
| src/concerns/Voting.ts:40-62 | The save hook adds the impact to `voting.sum` before the insert meets the unique index on (author, document), so a refused duplicate still changes the sum. | alice has a +1 vote on comment c1 (sum 1), and a second `Vote.create` of that vote runs: the insert is refused but the sum becomes 2. | A refused vote leaves the sum unchanged; every sum equals the total impact of its votes. | not executed; the only direct `Vote.create` (`src/routes/api/votes.ts:23`) sits in the `/api` router, which `src/routes/index.ts:12` leaves unmounted, so in the mounted app it takes two interleaved `vote` calls by one user on one document, the concurrency this model leaves out | Voting.SaveAsWrittenExample | Voting.VoteStore.Save |
| src/models/Tag.ts:80-85 | `tag` compares the input's slug before the validate hook derives it, and the tag controller strips any slug from the body, so a slug clash is never detected. | An existing tag "a-b" with slug "a-b", then `tag({text: "a b"})` with a slugger that writes spaces as dashes: it passes, and two tags share the slug "a-b". | No two tags of a document share a slug (the intent of the `assert` at `src/models/Tag.ts:82`). | not executed | Tags.TagAsWrittenDuplicatesSlug | Tags.Taggable.Tag |
