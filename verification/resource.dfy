/** The hypermedia resources the routes send: the `_links` object built from a resource's
    links, the title taken from its first `self` link, the indentation `toJSON` picks from the
    `pretty` query value, and the plain objects of a document and of a collection. */
module Resources {
  import opened Js
  import opened Links

  /** What the link list holds at one moment; `None` is a `null` or `undefined` entry. */
  function Snapshot(links: seq<Link?>): (s: seq<Option<LinkData>>)
    reads links
    ensures |s| == |links|
    ensures forall i :: 0 <= i < |links| ==> (s[i].Some? <==> links[i] != null)
    ensures forall i :: 0 <= i < |links| && links[i] != null ==> s[i].value == links[i].Data()
  {
    if links == [] then []
    else [if links[0] == null then None else Some(links[0].Data())] + Snapshot(links[1..])
  }

  /** The key a link gets in `_links`: its relation's string, or "undefined" without one. */
  function RelKey(rel: Option<LinkRel>): string {
    if rel.Some? then RelName(rel.value) else "undefined"
  }

  /** `{title, href}` of a link. */
  function Entry(d: LinkData): Json {
    JObj(map["title" := OptStr(d.title), "href" := OptStr(d.href)])
  }

  /** `links.filter(l => l).map(...).reduce((acc, cur) => Object.assign(acc, cur), {})`:
      every present link, in order, assigns its entry under its key. */
  function LinksObject(links: seq<Option<LinkData>>): map<string, Json> {
    if links == [] then map[]
    else
      var m := LinksObject(links[..|links| - 1]);
      var last := links[|links| - 1];
      if last.Some? then m[RelKey(last.value.rel) := Entry(last.value)] else m
  }

  /** The keys of the present links. */
  function KeysOf(links: seq<Option<LinkData>>): set<string> {
    set i | 0 <= i < |links| && links[i].Some? :: RelKey(links[i].value.rel)
  }

  /** `_links` has one key per relation among the present links, and no other. */
  lemma {:induction false} LinksObjectKeys(links: seq<Option<LinkData>>)
    ensures LinksObject(links).Keys == KeysOf(links)
  {
    if links != [] {
      var front := links[..|links| - 1];
      LinksObjectKeys(front);
      var last := links[|links| - 1];
      forall k | k in KeysOf(links) ensures k in KeysOf(front) || (last.Some? && k == RelKey(last.value.rel)) {
        var i :| 0 <= i < |links| && links[i].Some? && RelKey(links[i].value.rel) == k;
        if i < |links| - 1 {
          assert front[i] == links[i];
        }
      }
      forall k | k in KeysOf(front) ensures k in KeysOf(links) {
        var i :| 0 <= i < |front| && front[i].Some? && RelKey(front[i].value.rel) == k;
        assert links[i] == front[i];
      }
      if last.Some? {
        assert RelKey(links[|links| - 1].value.rel) in KeysOf(links);
      }
    }
  }

  /** The link at `i` is present and no later present link has its key. */
  predicate LastOfKey(links: seq<Option<LinkData>>, i: int)
    requires 0 <= i < |links| && links[i].Some?
  {
    forall j :: i < j < |links| && links[j].Some? ==> RelKey(links[j].value.rel) != RelKey(links[i].value.rel)
  }

  /** When relations repeat, the later link wins: a key holds the entry of the last present
      link with that key. */
  lemma {:induction false} LastLinkWins(links: seq<Option<LinkData>>, i: int)
    requires 0 <= i < |links| && links[i].Some? && LastOfKey(links, i)
    ensures var m := LinksObject(links);
            RelKey(links[i].value.rel) in m && m[RelKey(links[i].value.rel)] == Entry(links[i].value)
  {
    if i < |links| - 1 {
      var front := links[..|links| - 1];
      assert front[i] == links[i];
      assert LastOfKey(front, i) by {
        forall j | i < j < |front| && front[j].Some?
          ensures RelKey(front[j].value.rel) != RelKey(front[i].value.rel)
        {
          assert front[j] == links[j];
        }
      }
      LastLinkWins(front, i);
    }
  }

  /** `links[i]` is present, is a `self` link, and is the first `self` link, with only present
      links before it. */
  predicate FirstSelf(links: seq<Option<LinkData>>, i: int) {
    && 0 <= i < |links| && links[i].Some? && links[i].value.rel == Some(Self)
    && forall j :: 0 <= j < i ==> links[j].Some? && links[j].value.rel != Some(Self)
  }

  /** The `title` getter: `links.find(l => l.rel == LinkRel.Self).title`. Reading `rel` of a
      missing entry reached before any `self` link, or `title` when there is no `self` link,
      throws a TypeError. */
  function TitleOf(links: seq<Option<LinkData>>): (r: Result<Option<string>, string>)
    ensures r.Err? ==> r.error == TypeErrorMessage
  {
    if links == [] || links[0].None? then Err(TypeErrorMessage)
    else if links[0].value.rel == Some(Self) then Ok(links[0].value.title)
    else TitleOf(links[1..])
  }

  /** The title is the first `self` link's title, and there is one exactly when a `self` link
      is reached without passing a missing entry. */
  lemma {:induction false} TitleIsFirstSelf(links: seq<Option<LinkData>>)
    ensures TitleOf(links).Ok? <==> exists i :: FirstSelf(links, i)
    ensures forall i :: FirstSelf(links, i) ==> TitleOf(links) == Ok(links[i].value.title)
  {
    if links != [] && links[0].Some? && links[0].value.rel != Some(Self) {
      var rest := links[1..];
      TitleIsFirstSelf(rest);
      forall i | FirstSelf(links, i) ensures FirstSelf(rest, i - 1) {
        assert i != 0;
        forall j | 0 <= j < i - 1 ensures rest[j].Some? && rest[j].value.rel != Some(Self) {
          assert rest[j] == links[j + 1];
        }
      }
      forall i | FirstSelf(rest, i) ensures FirstSelf(links, i + 1) {
        forall j | 0 <= j < i + 1 ensures links[j].Some? && links[j].value.rel != Some(Self) {
          if j > 0 {
            assert links[j] == rest[j - 1];
          }
        }
      }
    } else if links != [] && links[0].Some? {
      assert FirstSelf(links, 0);
      forall i | FirstSelf(links, i) ensures i == 0 {
      }
    }
  }

  /** Links appended after a title was found do not change it. */
  lemma {:induction false} TitleKeptByAppend(links: seq<Option<LinkData>>, more: seq<Option<LinkData>>)
    requires TitleOf(links).Ok?
    ensures TitleOf(links + more) == TitleOf(links)
  {
    if links[0].value.rel != Some(Self) {
      assert (links + more)[1..] == links[1..] + more;
      TitleKeptByAppend(links[1..], more);
    }
  }

  /** `parseInt(pretty) || 2` when `pretty` is given, and 0 otherwise: an unparsable or zero
      value indents by 2. */
  function IndentLevel(pretty: Option<string>): (n: int)
    ensures n == 0 <==> pretty.None?
    ensures pretty.Some? ==> (n == 2 <==> ParseInt(pretty.value) in {None, Some(0), Some(2)})
    ensures pretty.Some? && ParseInt(pretty.value).Some? && ParseInt(pretty.value).value != 0 ==>
      n == ParseInt(pretty.value).value
  {
    if pretty.None? then 0
    else
      var parsed := ParseInt(pretty.value);
      if parsed.None? || parsed.value == 0 then 2 else parsed.value
  }

  /** A positive numeral is the indentation it writes. */
  lemma IndentOfNumeral(n: nat)
    requires n >= 1
    ensures IndentLevel(Some(Decimal(n))) == n
  {
    DecimalParseInt(n);
    assert ParseInt(Decimal(n)) == Some(n);
  }

  /** `Resource.toObject()`: `{ _links }`. */
  function ResourceObject(links: seq<Option<LinkData>>): (o: map<string, Json>)
    ensures o.Keys == {"_links"} && o["_links"] == JObj(LinksObject(links))
  {
    map["_links" := JObj(LinksObject(links))]
  }

  /** A resource around one document; `doc` is what the document's `toObject()` gives. */
  class DocumentResource {
    var links: seq<Link?>
    const doc: map<string, Json>

    /** `new DocumentResource(doc, ...links)`: an empty list with `links` pushed in order. */
    constructor (doc: map<string, Json>, links: seq<Link?>)
      ensures this.links == [] + links && this.doc == doc
    {
      this.doc := doc;
      this.links := [];
      new;
      this.links := this.links + links;
    }

    /** The `links` setter. */
    method SetLinks(newLinks: seq<Link?>)
      modifies this`links
      ensures links == newLinks
    {
      links := newLinks;
    }

    /** The `title` getter: the first `self` link's title, or a TypeError when no `self`
        link is reached. */
    function Title(): (r: Result<Option<string>, string>)
      reads this, links
      ensures r.Ok? <==> exists i :: FirstSelf(Snapshot(links), i)
      ensures forall i :: FirstSelf(Snapshot(links), i) ==> r == Ok(links[i].title)
    {
      var s := Snapshot(links);
      TitleIsFirstSelf(s);
      assert s == Snapshot(links);
      TitleOf(s)
    }

    /** `Object.assign(super.toObject(), doc.toObject())`: the document's own fields, over
        `_links`. */
    function ToObject(): (o: map<string, Json>)
      reads this, links
      ensures o.Keys == doc.Keys + {"_links"}
      ensures forall k :: k in doc ==> o[k] == doc[k]
      ensures "_links" !in doc ==> o["_links"] == JObj(LinksObject(Snapshot(links)))
    {
      ResourceObject(Snapshot(links)) + doc
    }
  }

  /** The links the resources `res` hold. */
  function LinkFootprint(res: seq<DocumentResource>): set<object?>
    reads res
  {
    if res == [] then {} else (set l | l in res[0].links) + LinkFootprint(res[1..])
  }

  /** `res.map(res => res.toObject())`: the objects of the resources `res`, in order. */
  function ChildObjects(res: seq<DocumentResource>): (items: seq<Json>)
    reads res, LinkFootprint(res)
    ensures |items| == |res|
    ensures forall i :: 0 <= i < |res| ==> items[i] == JObj(res[i].ToObject())
  {
    if res == [] then []
    else
      [JObj(res[0].ToObject())] + ChildObjects(res[1..])
  }

  /** A resource around a list of document resources, with metadata. */
  class CollectionResource {
    var links: seq<Link?>
    const res: seq<DocumentResource>
    var meta: Json

    /** `new CollectionResource(res, ...links)`; `_meta` starts `undefined`. */
    constructor (res: seq<DocumentResource>, links: seq<Link?>)
      ensures this.links == [] + links && this.res == res && meta == JUndefined
    {
      this.res := res;
      this.links := [];
      meta := JUndefined;
      new;
      this.links := this.links + links;
    }

    method SetLinks(newLinks: seq<Link?>)
      modifies this`links
      ensures links == newLinks
    {
      links := newLinks;
    }

    method SetMeta(newMeta: Json)
      modifies this`meta
      ensures meta == newMeta
    {
      meta := newMeta;
    }

    /** `toObject()`: `_links`, then `_meta`, then the children under the title (the key
        "undefined" when the `self` link has no title); reading the title can throw. */
    function ToObject(): (r: Result<map<string, Json>, string>)
      reads this, links, res, LinkFootprint(res)
      ensures r.Err? <==> TitleOf(Snapshot(links)).Err?
      ensures r.Err? ==> r.error == TypeErrorMessage
      ensures r.Ok? ==>
        var title := TitleOf(Snapshot(links)).value;
        var key := if title.Some? then title.value else "undefined";
        && r.value.Keys == {"_links", "_meta", key}
        && r.value[key] == JArr(ChildObjects(res))
        && (key != "_meta" ==> r.value["_meta"] == meta)
        && (key != "_links" ==> r.value["_links"] == JObj(LinksObject(Snapshot(links))))
    {
      var title := TitleOf(Snapshot(links));
      if title.Err? then Err(title.error)
      else
        var key := if title.value.Some? then title.value.value else "undefined";
        Ok(ResourceObject(Snapshot(links))["_meta" := meta][key := JArr(ChildObjects(res))])
    }
  }
}
