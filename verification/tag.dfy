/** Tags and the taggable plugin: a tag's text rules, the slug the validate hook derives from
    the text, the fields `toObject` keeps, and `tag`, which appends a tag to a document's
    list when no tag there has its slug or its text. */
module Tags {
  import opened Js

  const UniqueMessage := "Tag must be unique!"
  /** A stand-in for the message of Mongoose's validation error, which reads
      "<Model> validation failed: <path>: <message>"; the model does not build that text. */
  const ValidationMessage := "Validation failed"

  /** A stored tag: its subdocument id, text, slug and author. */
  datatype Tag = Tag(id: string, text: string, slug: string, author: Json)

  /** The object handed to `tag`: a text and a slug only if the caller gave them. */
  datatype TagInput = TagInput(text: Option<string>, slug: Option<string>, author: Json)

  /** The text rules of the schema: 2 to 32 characters, the first of which is not white
      space (`match: /^[\S{2,}]/` tests the first character only). */
  predicate ValidText(text: string) {
    2 <= |text| <= 32 && !IsSpace(text[0])
  }

  /** A tag the schema accepts: a valid text and a non-empty slug (both are required). */
  predicate ValidTag(t: Tag) {
    ValidText(t.text) && t.slug != ""
  }

  /** The `pre("validate")` hook: a tag with a text but no slug gets `slug(text)`. */
  function WithSlug(t: Tag, slugger: string -> string): (u: Tag)
    ensures u.id == t.id && u.text == t.text && u.author == t.author
    ensures t.text != "" && t.slug == "" ==> u.slug == slugger(t.text)
    ensures t.text == "" || t.slug != "" ==> u.slug == t.slug
  {
    if t.text != "" && t.slug == "" then t.(slug := slugger(t.text)) else t
  }

  /** The input cast to a tag subdocument with id `id`, an absent text or slug as empty. */
  function Cast(input: TagInput, id: string): Tag {
    Tag(id, if input.text.Some? then input.text.value else "",
        if input.slug.Some? then input.slug.value else "", input.author)
  }

  /** Two tags that may not both be in a list: same slug or same text. */
  predicate Clash(t: Tag, u: Tag) {
    t.slug == u.slug || t.text == u.text
  }

  /** No two tags of the list clash. */
  predicate Distinct(tags: seq<Tag>) {
    forall i, j :: 0 <= i < j < |tags| ==> !Clash(tags[i], tags[j])
  }

  /** `tags.some(t => t.slug == u.slug || t.text == u.text)`. */
  function AnyClash(tags: seq<Tag>, u: Tag): (b: bool)
    ensures b <==> exists i :: 0 <= i < |tags| && Clash(tags[i], u)
  {
    if tags == [] then false
    else AnyClash(tags[..|tags| - 1], u) || Clash(tags[|tags| - 1], u)
  }

  /** Appending a tag that clashes with none keeps the list distinct. */
  lemma {:induction false} DistinctAppend(tags: seq<Tag>, u: Tag)
    requires Distinct(tags) && !AnyClash(tags, u)
    ensures Distinct(tags + [u])
  {
    var r := tags + [u];
    forall i, j | 0 <= i < j < |r| ensures !Clash(r[i], r[j]) {
      if j == |tags| {
        assert r[i] == tags[i];
        assert !Clash(tags[i], u);
      } else {
        assert r[i] == tags[i] && r[j] == tags[j];
      }
    }
  }

  /** The toObject transform: `_.pick(ret, ["_id", "text", "slug"])`. */
  function ToObject(t: Tag): (o: map<string, Json>)
    ensures o.Keys == {"_id", "text", "slug"}
    ensures o["_id"] == JStr(t.id) && o["text"] == JStr(t.text) && o["slug"] == JStr(t.slug)
  {
    map["_id" := JStr(t.id), "text" := JStr(t.text), "slug" := JStr(t.slug)]
  }

  /** The source's test on the input as given: `t.slug == input.slug || t.text == input.text`,
      where an absent field equals no string. */
  predicate LooseClash(t: Tag, input: TagInput) {
    (input.slug.Some? && t.slug == input.slug.value) || (input.text.Some? && t.text == input.text.value)
  }

  /** `tag(input)` as the source runs it, on the saved list: the uniqueness check compares
      the input's slug, which is absent unless the caller gave one, and only afterwards does
      the save's validate hook derive the slug. Returns the outcome and the saved list. */
  function TagAsWritten(tags: seq<Tag>, input: TagInput, id: string, slugger: string -> string): (r: (Outcome<string>, seq<Tag>))
    ensures r.0 == Pass ==> r.1 == tags + [WithSlug(Cast(input, id), slugger)]
    ensures r.0.Fail? ==> r.1 == tags
  {
    var clash := (exists i :: 0 <= i < |tags| && LooseClash(tags[i], input));
    var prepared := WithSlug(Cast(input, id), slugger);
    if clash then (Fail(UniqueMessage), tags)
    else if !ValidTag(prepared) then (Fail(ValidationMessage), tags)
    else (Pass, tags + [prepared])
  }

  /** A slug function that writes spaces as dashes, as the slug library does. */
  function Dashed(s: string): (r: string)
    ensures |r| == |s|
  {
    if s == [] then [] else [if s[0] == ' ' then '-' else s[0]] + Dashed(s[1..])
  }

  /** The source's order lets a second tag with the slug of an existing one in: "a b" is
      tagged after "a-b", both get the slug "a-b", and the list is no longer distinct. */
  lemma TagAsWrittenDuplicatesSlug()
    ensures var existing := Tag("t1", "a-b", "a-b", JUndefined);
            var r := TagAsWritten([existing], TagInput(Some("a b"), None, JUndefined), "t2", Dashed);
            Distinct([existing]) && r.0 == Pass && !Distinct(r.1)
  {
    var existing := Tag("t1", "a-b", "a-b", JUndefined);
    assert Dashed("a b") == "a-b" by {
      assert Dashed("b") == "b";
      assert Dashed(" b") == "-b";
    }
    var r := TagAsWritten([existing], TagInput(Some("a b"), None, JUndefined), "t2", Dashed);
    assert r.1[0].slug == r.1[1].slug;
  }

  /** A document with tags (the taggable plugin's `tags` array), as saved. */
  class Taggable {
    var tags: seq<Tag>

    ghost predicate Valid()
      reads this
    {
      Distinct(tags) && forall i :: 0 <= i < |tags| ==> ValidTag(tags[i])
    }

    constructor ()
      ensures Valid() && tags == []
    {
      tags := [];
    }

    /** `tag(input)`, with the slug derived before the uniqueness check: a clash with an
        existing slug or text fails with "Tag must be unique!", a tag the schema refuses
        fails validation, and in both cases the list is unchanged; otherwise the tag is
        appended. */
    method Tag(input: TagInput, id: string, slugger: string -> string) returns (r: Outcome<string>)
      requires Valid()
      modifies this
      ensures Valid()
      ensures var u := WithSlug(Cast(input, id), slugger);
        && (AnyClash(old(tags), u) ==> r == Fail(UniqueMessage) && tags == old(tags))
        && (!AnyClash(old(tags), u) && !ValidTag(u) ==> r == Fail(ValidationMessage) && tags == old(tags))
        && (!AnyClash(old(tags), u) && ValidTag(u) ==> r == Pass && tags == old(tags) + [u])
    {
      var u := WithSlug(Cast(input, id), slugger);
      if AnyClash(tags, u) {
        return Fail(UniqueMessage);
      }
      if !ValidTag(u) {
        return Fail(ValidationMessage);
      }
      DistinctAppend(tags, u);
      tags := tags + [u];
      r := Pass;
    }
  }
}
