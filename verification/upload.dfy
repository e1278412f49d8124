/** The Upload model: paging through the uploads that match a query, the slug an upload gets
    when it is validated without one, and the count of users who favour it. */
module Uploads {
  import opened Js

  /** What `paginate` resolves to. */
  datatype Page<T> = Page(docs: seq<T>, total: nat, limit: nat, page: nat, pages: nat)

  /** The documents `find().where(query)` yields, in the order of `all` (already sorted). */
  function Matching<T(!new)>(all: seq<T>, matches: T -> bool): (r: seq<T>)
    ensures |r| <= |all|
    ensures forall x :: x in r <==> x in all && matches(x)
  {
    if all == [] then []
    else Matching(all[..|all| - 1], matches) + (if matches(all[|all| - 1]) then [all[|all| - 1]] else [])
  }

  function Min(a: int, b: int): int {
    if a <= b then a else b
  }

  /** `Math.ceil(total / limit)` for a positive limit. */
  function PageCount(total: nat, limit: nat): (pages: nat)
    requires limit >= 1
    ensures pages * limit >= total
    ensures pages == 0 || (pages - 1) * limit < total
  {
    (total + limit - 1) / limit
  }

  /** `paginate(query, {sort, page, limit})` over `all`, the collection in `sort` order. */
  function Paginate<T(!new)>(all: seq<T>, matches: T -> bool, page: nat, limit: nat): (p: Page<T>)
    requires page >= 1 && limit >= 1
    ensures p.total == |Matching(all, matches)|
    ensures p.docs == Window(Matching(all, matches), Offset(page, limit), limit)
    ensures |p.docs| <= limit
    ensures p.page == page && p.limit == limit
    ensures p.pages == PageCount(p.total, limit)
  {
    var found := Matching(all, matches);
    Page(Window(found, Offset(page, limit), limit), |found|, limit, page, PageCount(|found|, limit))
  }

  /** `.skip((page - 1) * limit)`. */
  function Offset(page: nat, limit: nat): nat
    requires page >= 1
  {
    (page - 1) * limit
  }

  /** `.skip(skip).limit(limit)` on the sequence `s`: at most `limit` elements, starting at
      position `skip`, and nothing when `skip` is past the end. */
  function Window<T>(s: seq<T>, skip: nat, limit: nat): (w: seq<T>)
    ensures |w| <= limit
    ensures skip >= |s| ==> w == []
    ensures skip < |s| ==> |w| == Min(limit, |s| - skip)
    ensures forall j :: 0 <= j < |w| ==> w[j] == s[skip + j]
  {
    if skip >= |s| then [] else s[skip..Min(skip + limit, |s|)]
  }

  /** Every matching document is on exactly one page: the `i`-th is entry `i % limit` of
      page `i / limit + 1`, and that page is within `pages`. */
  lemma {:induction false} OnItsPage<T(!new)>(all: seq<T>, matches: T -> bool, limit: nat, i: nat)
    requires limit >= 1 && i < |Matching(all, matches)|
    ensures var p := Paginate(all, matches, i / limit + 1, limit);
            i % limit < |p.docs| && p.docs[i % limit] == Matching(all, matches)[i]
            && i / limit + 1 <= p.pages
  {
    var total := |Matching(all, matches)|;
    var page := i / limit + 1;
    assert Offset(page, limit) + i % limit == i;
    var pages := PageCount(total, limit);
    if pages < page {
      assert pages * limit <= (page - 1) * limit by {
        MulMonotone(pages, page - 1, limit);
      }
      assert false;
    }
  }

  lemma MulMonotone(a: nat, b: nat, c: nat)
    requires a <= b
    ensures a * c <= b * c
  {
  }

  /** The number of users whose favourites contain `id`. */
  function FavoriteCount(favorites: seq<seq<string>>, id: string): (n: nat)
    ensures n <= |favorites|
    ensures n == 0 <==> forall f :: f in favorites ==> id !in f
  {
    if favorites == [] then 0
    else
      var rest := favorites[..|favorites| - 1];
      var last := favorites[|favorites| - 1];
      assert favorites == rest + [last];
      FavoriteCount(rest, id) + (if id in last then 1 else 0)
  }

  /** One more user counts exactly when that user's favourites contain `id`. */
  lemma FavoriteCountAppend(favorites: seq<seq<string>>, f: seq<string>, id: string)
    ensures FavoriteCount(favorites + [f], id) == FavoriteCount(favorites, id) + (if id in f then 1 else 0)
  {
    assert (favorites + [f])[..|favorites|] == favorites;
  }

  /** An upload, with the fields its hooks and methods assign. */
  class Upload {
    /** The upload's id, as a string. */
    const id: string
    var title: string
    var slug: string
    /** Set only by `updateFavoriteCount`. */
    var favoritesCount: Option<nat>

    constructor (id: string, title: string)
      ensures this.id == id && this.title == title && slug == "" && favoritesCount == None
    {
      this.id, this.title, slug, favoritesCount := id, title, "", None;
    }

    /** Assigning `slug`: the schema's `lowercase` option lowercases the value. */
    method SetSlug(s: string)
      modifies this`slug
      ensures slug == LowerAscii(s)
    {
      slug := LowerAscii(s);
    }

    /** `slugify()`: the slug library's form of the title, through the `slug` setter. */
    method Slugify(slugger: string -> string)
      modifies this`slug
      ensures slug == LowerAscii(slugger(title))
    {
      SetSlug(slugger(title));
    }

    /** The `pre("validate")` hook: an empty slug is derived from the title; a slug already
        there is kept. */
    method Validate(slugger: string -> string)
      modifies this`slug
      ensures old(slug) != "" ==> slug == old(slug)
      ensures old(slug) == "" ==> slug == LowerAscii(slugger(title))
    {
      if slug == "" {
        Slugify(slugger);
      }
    }

    /** `updateFavoriteCount()`: the number of users, given by their favourite lists, whose
        favourites contain this upload's id. */
    method UpdateFavoriteCount(favorites: seq<seq<string>>)
      modifies this`favoritesCount
      ensures favoritesCount == Some(FavoriteCount(favorites, id))
    {
      favoritesCount := Some(FavoriteCount(favorites, id));
    }
  }
}
