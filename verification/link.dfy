/** Hypermedia links: the relation names, and the `Link` record with its accessors and its
    plain-object form. */
module Links {
  import opened Js

  /** `LinkRel`. */
  datatype LinkRel = Parent | Collection | Self | Next | Prev | Last

  /** The string each relation stands for; the collection relation is spelled "collectiom". */
  function RelName(r: LinkRel): (s: string)
    ensures s != ""
    ensures r == Collection <==> s == "collectiom"
    ensures r == Self <==> s == "self"
  {
    match r
    case Parent => "parent"
    case Collection => "collectiom"
    case Self => "self"
    case Next => "next"
    case Prev => "prev"
    case Last => "last"
  }

  /** The relation a string stands for, if any. */
  function ParseRel(s: string): (r: Option<LinkRel>)
    ensures r.Some? ==> RelName(r.value) == s
  {
    if s == "parent" then Some(Parent)
    else if s == "collectiom" then Some(Collection)
    else if s == "self" then Some(Self)
    else if s == "next" then Some(Next)
    else if s == "prev" then Some(Prev)
    else if s == "last" then Some(Last)
    else None
  }

  /** Every relation is read back from its name, so no two relations share a name. */
  lemma ParseRelName(r: LinkRel)
    ensures ParseRel(RelName(r)) == Some(r)
    ensures forall q :: RelName(q) == RelName(r) ==> q == r
  {
    forall q | RelName(q) == RelName(r) ensures q == r {
      assert ParseRel(RelName(q)) == Some(q);
    }
  }

  /** What a link holds at one moment; every part is optional, as in the constructor. */
  datatype LinkData = LinkData(rel: Option<LinkRel>, href: Option<string>, title: Option<string>)

  /** `undefined` or the relation's string. */
  function RelJson(rel: Option<LinkRel>): Json {
    if rel.Some? then JStr(RelName(rel.value)) else JUndefined
  }

  /** The object `toObject` builds from a link's parts. */
  function DataObject(d: LinkData): (o: map<string, Json>)
    ensures o.Keys == {"rel", "href", "title"}
    ensures o["href"] == OptStr(d.href) && o["title"] == OptStr(d.title)
    ensures o["rel"].JStr? <==> d.rel.Some?
    ensures o["rel"].JStr? ==> ParseRel(o["rel"].s) == d.rel
    ensures !o["rel"].JStr? ==> o["rel"] == JUndefined
  {
    var o := map["rel" := RelJson(d.rel), "href" := OptStr(d.href), "title" := OptStr(d.title)];
    if d.rel.Some? then ParseRelName(d.rel.value); o else o
  }

  /** A link; its getters read the fields and its setters assign them. */
  class Link {
    var href: Option<string>
    var title: Option<string>
    var rel: Option<LinkRel>

    constructor (href: Option<string>, title: Option<string>, rel: Option<LinkRel>)
      ensures Data() == LinkData(rel, href, title)
    {
      this.href, this.title, this.rel := href, title, rel;
    }

    function Data(): LinkData
      reads this
    {
      LinkData(rel, href, title)
    }

    /** `toObject()`: the current relation, href and title. */
    function ToObject(): (o: map<string, Json>)
      reads this
      ensures o == DataObject(Data())
    {
      map["rel" := RelJson(rel), "href" := OptStr(href), "title" := OptStr(title)]
    }

    method SetHref(h: Option<string>)
      modifies this`href
      ensures Data() == old(Data()).(href := h)
      ensures ToObject() == old(ToObject())["href" := OptStr(h)]
    {
      href := h;
    }

    method SetTitle(t: Option<string>)
      modifies this`title
      ensures Data() == old(Data()).(title := t)
      ensures ToObject() == old(ToObject())["title" := OptStr(t)]
    {
      title := t;
    }

    method SetRel(r: Option<LinkRel>)
      modifies this`rel
      ensures Data() == old(Data()).(rel := r)
      ensures ToObject() == old(ToObject())["rel" := RelJson(r)]
    {
      rel := r;
    }
  }
}
