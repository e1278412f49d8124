/** The Comment model's part in voting and its serialisation: the impact policy it registers
    with the voting plugin, and the `toObject` transform that turns ids into strings, wraps
    the body for XML output and writes the timestamps. */
module Comment {
  import opened Js
  import Voting

  /** The validator and message the Comment schema registers with the voting plugin. */
  function CommentPolicy(): (p: Voting.Policy)
    ensures forall i: int {:trigger p.accepts(i)} :: p.accepts(i) <==> i == -1 || i == 1
    ensures p.message == "Vote must be +/- 1"
  {
    Voting.Policy(v => v in [-1, 1], "Vote must be +/- 1")
  }

  /** A reference field of a comment: unset, an id, or a populated document. */
  datatype Ref = Unset | Id(hex: string) | Populated(doc: Json)

  /** The stored comment the transform reads: its id, body, author and upload references,
      and its timestamps (already in ISO form). */
  datatype CommentDoc = CommentDoc(
    id: string, body: string, author: Ref, upload: Ref, createdAt: string, updatedAt: string)

  /** `x == true` with JavaScript's loose equality: `x` must convert to the number 1. */
  predicate LooseTrue(x: Json)
    decreases x, 0
  {
    match x
    case JBool(b) => b
    case JNum(n) => n == 1
    case JStr(s) => ToNumber(s) == Some(1)
    case JArr(items) => |items| == 1 && ItemIsOne(items[0])
    case _ => false
  }

  /** Whether a one-element array's element, written as a string by `join`, reads as 1. */
  predicate ItemIsOne(x: Json)
    decreases x, 1
  {
    match x
    case JNum(n) => n == 1
    case JStr(s) => ToNumber(s) == Some(1)
    case JArr(_) => LooseTrue(x)
    case _ => false
  }

  /** The fields of `ret` after the transform, given the document and the options. */
  function Transformed(doc: CommentDoc, ret: map<string, Json>, options: Json): map<string, Json> {
    var ids := ret["_id" := JStr(doc.id)];
    var withAuthor := if doc.author.Id? then ids["author" := JStr(doc.author.hex)] else ids;
    var withUpload := if doc.upload.Id? then withAuthor["upload" := JStr(doc.upload.hex)] else withAuthor;
    var withBody :=
      if Truthy(options) && LooseTrue(Get(options, "xml"))
      then withUpload["body" := JObj(map["#cdata" := JStr(doc.body)])]
      else withUpload;
    withBody["updatedAt" := JStr(doc.updatedAt)]["createdAt" := JStr(doc.createdAt)]
  }

  /** The transform always writes the id string and the timestamps; it writes the author
      and upload ids only for set, unpopulated references, and wraps the body in a CDATA
      object exactly when `options.xml == true`. Every other field is left as it was. */
  lemma TransformedFields(doc: CommentDoc, ret: map<string, Json>, options: Json)
    ensures var r := Transformed(doc, ret, options);
      && r.Keys >= ret.Keys
      && r["_id"] == JStr(doc.id)
      && r["createdAt"] == JStr(doc.createdAt) && r["updatedAt"] == JStr(doc.updatedAt)
      && (doc.author.Id? ==> r["author"] == JStr(doc.author.hex))
      && (!doc.author.Id? ==> ("author" in r <==> "author" in ret) && ("author" in ret ==> r["author"] == ret["author"]))
      && (doc.upload.Id? ==> r["upload"] == JStr(doc.upload.hex))
      && (!doc.upload.Id? ==> ("upload" in r <==> "upload" in ret) && ("upload" in ret ==> r["upload"] == ret["upload"]))
      && (Truthy(options) && LooseTrue(Get(options, "xml")) ==>
            r["body"] == JObj(map["#cdata" := JStr(doc.body)]))
      && (!(Truthy(options) && LooseTrue(Get(options, "xml"))) ==>
            ("body" in r <==> "body" in ret) && ("body" in ret ==> r["body"] == ret["body"]))
      && (forall k :: k in ret && k !in {"_id", "author", "upload", "body", "createdAt", "updatedAt"} ==> r[k] == ret[k])
  {
  }

  /** The transform rewrites fields into values that do not depend on what `ret` held
      for them, so running it a second time changes nothing. */
  lemma TransformedIdempotent(doc: CommentDoc, ret: map<string, Json>, options: Json)
    ensures Transformed(doc, Transformed(doc, ret, options), options) == Transformed(doc, ret, options)
  {
  }

  /** The plain object `toObject` builds, whose fields the transform overwrites. */
  class PlainObject {
    var fields: map<string, Json>

    constructor (fields: map<string, Json>)
      ensures this.fields == fields
    {
      this.fields := fields;
    }

    /** The `toObject` transform, applied to this object in place. */
    method Transform(doc: CommentDoc, options: Json)
      modifies this
      ensures fields == Transformed(doc, old(fields), options)
    {
      fields := fields["_id" := JStr(doc.id)];
      if doc.author.Id? {
        fields := fields["author" := JStr(doc.author.hex)];
      }
      if doc.upload.Id? {
        fields := fields["upload" := JStr(doc.upload.hex)];
      }
      if Truthy(options) && LooseTrue(Get(options, "xml")) {
        fields := fields["body" := JObj(map["#cdata" := JStr(doc.body)])];
      }
      fields := fields["updatedAt" := JStr(doc.updatedAt)];
      fields := fields["createdAt" := JStr(doc.createdAt)];
    }
  }
}
