/** The User model: the username and email rules, the public JSON projection, and the list of
    favourite uploads with `favorite`, `unfavorite` and `isFavorite`. Ids are their strings. */
module Users {
  import opened Js

  const BlankMessage := "can't be blank"
  const InvalidMessage := "is invalid"

  predicate IsAlnum(c: char) {
    'a' <= c <= 'z' || 'A' <= c <= 'Z' || '0' <= c <= '9'
  }

  /** `required` and `match: /^[a-zA-Z0-9]+$/`. */
  predicate UsernameMatches(s: string) {
    |s| > 0 && forall i :: 0 <= i < |s| ==> IsAlnum(s[i])
  }

  /** `match: /\S+@\S+\.\S+/`, which may match anywhere in the string. */
  predicate EmailMatches(s: string) {
    exists a, b | 0 <= a < b < |s| :: EmailAt(s, a, b)
  }

  /** The match with the `@` at `a` and the `.` at `b`: a non-space before the `@`, only
      non-spaces (at least one) between the two, and a non-space after the `.`. */
  predicate EmailAt(s: string, a: int, b: int) {
    1 <= a && a + 1 < b < |s| - 1 && s[a] == '@' && s[b] == '.'
    && !IsSpace(s[a - 1]) && !IsSpace(s[b + 1]) && forall k :: a < k < b ==> !IsSpace(s[k])
  }

  /** Two strings of the same length with white space, `@` and `.` in the same places match
      at the same positions. */
  lemma SameShape(s: string, t: string, a: int, b: int)
    requires |s| == |t|
    requires forall i :: 0 <= i < |s| ==> (IsSpace(s[i]) <==> IsSpace(t[i]))
    requires forall i :: 0 <= i < |s| ==> (s[i] == '@' <==> t[i] == '@') && (s[i] == '.' <==> t[i] == '.')
    ensures EmailAt(s, a, b) <==> EmailAt(t, a, b)
  {
  }

  /** The error a string field gets from `required` and `match`, if any. */
  function FieldError(s: string, matches: bool): (e: Option<string>)
    ensures s == "" ==> e == Some(BlankMessage)
    ensures s != "" ==> (e.None? <==> matches)
    ensures s != "" && !matches ==> e == Some(InvalidMessage)
  {
    if s == "" then Some(BlankMessage) else if !matches then Some(InvalidMessage) else None
  }

  /** Lowercasing keeps a username's shape: the `lowercase` setter runs before `match`, and it
      accepts exactly the usernames it would have accepted unlowered. */
  lemma {:induction false} LowerUsername(s: string)
    ensures UsernameMatches(LowerAscii(s)) <==> UsernameMatches(s)
  {
    var l := LowerAscii(s);
    forall i | 0 <= i < |s| ensures IsAlnum(l[i]) <==> IsAlnum(s[i]) {
      assert l[i] == LowerChar(s[i]);
    }
  }

  /** Lowercasing leaves white space, `@` and `.` where they are, so it keeps an email's
      acceptance. */
  lemma {:induction false} LowerEmail(s: string)
    ensures EmailMatches(LowerAscii(s)) <==> EmailMatches(s)
  {
    var l := LowerAscii(s);
    assert forall i :: 0 <= i < |s| ==> l[i] == LowerChar(s[i]);
    if EmailMatches(s) {
      var a, b :| 0 <= a < b < |s| && EmailAt(s, a, b);
      SameShape(s, l, a, b);
    }
    if EmailMatches(l) {
      var a, b :| 0 <= a < b < |l| && EmailAt(l, a, b);
      SameShape(s, l, a, b);
    }
  }

  /** `favorites.indexOf(id)`. */
  function IndexOf(favorites: seq<string>, id: string): (k: int)
    ensures -1 <= k < |favorites|
    ensures k == -1 <==> id !in favorites
    ensures k >= 0 ==> favorites[k] == id && id !in favorites[..k]
  {
    if favorites == [] then -1
    else if favorites[0] == id then 0
    else
      var k := IndexOf(favorites[1..], id);
      assert favorites[1..][..if k < 0 then 0 else k] == favorites[1..1 + if k < 0 then 0 else k];
      if k == -1 then -1 else k + 1
  }

  /** The list after `favorite(id)`: `id` is pushed when `indexOf` does not find it. */
  function Favorited(favorites: seq<string>, id: string): (r: seq<string>)
    ensures id in r
    ensures forall x :: x in r <==> x in favorites || x == id
    ensures |r| == |favorites| + (if id in favorites then 0 else 1)
    ensures r[..|favorites|] == favorites
  {
    if IndexOf(favorites, id) == -1 then favorites + [id] else favorites
  }

  /** `favorites.remove(id)`: every entry equal to `id` is pulled. */
  function Unfavorited(favorites: seq<string>, id: string): (r: seq<string>)
    ensures id !in r
    ensures forall x :: x in r <==> x in favorites && x != id
    ensures |r| <= |favorites|
  {
    if favorites == [] then []
    else (if favorites[0] == id then [] else [favorites[0]]) + Unfavorited(favorites[1..], id)
  }

  /** No id occurs twice. */
  predicate NoDuplicates(s: seq<string>) {
    forall i, j :: 0 <= i < j < |s| ==> s[i] != s[j]
  }

  /** Favouring keeps the list free of duplicates, and favouring twice is favouring once. */
  lemma FavoritedKeepsNoDuplicates(favorites: seq<string>, id: string)
    requires NoDuplicates(favorites)
    ensures NoDuplicates(Favorited(favorites, id))
    ensures Favorited(Favorited(favorites, id), id) == Favorited(favorites, id)
  {
    var r := Favorited(favorites, id);
    if id !in favorites {
      forall i, j | 0 <= i < j < |r| ensures r[i] != r[j] {
        if j == |favorites| {
          assert r[i] == favorites[i];
        } else {
          assert r[i] == favorites[i] && r[j] == favorites[j];
        }
      }
    }
  }

  /** Unfavouring a fresh favourite gives back the list as it was. */
  lemma {:induction false} UnfavoriteUndoesFavorite(favorites: seq<string>, id: string)
    requires id !in favorites
    ensures Unfavorited(Favorited(favorites, id), id) == favorites
  {
    UnfavoritedAbsent(favorites, id);
    UnfavoritedAppend(favorites, id);
  }

  lemma {:induction false} UnfavoritedAbsent(favorites: seq<string>, id: string)
    requires id !in favorites
    ensures Unfavorited(favorites, id) == favorites
  {
    if favorites != [] {
      UnfavoritedAbsent(favorites[1..], id);
    }
  }

  lemma {:induction false} UnfavoritedAppend(favorites: seq<string>, id: string)
    ensures Unfavorited(favorites + [id], id) == Unfavorited(favorites, id)
  {
    if favorites == [] {
      assert Unfavorited([id], id) == [] + Unfavorited([], id);
    } else {
      assert (favorites + [id])[1..] == favorites[1..] + [id];
      UnfavoritedAppend(favorites[1..], id);
    }
  }

  /** `$pull` keeps the order of what it leaves: the kept ids of a concatenation are the
      kept ids of its first part followed by those of its second. */
  lemma {:induction false} UnfavoritedConcat(a: seq<string>, b: seq<string>, id: string)
    ensures Unfavorited(a + b, id) == Unfavorited(a, id) + Unfavorited(b, id)
  {
    if a == [] {
      assert a + b == b;
    } else {
      assert (a + b)[1..] == a[1..] + b;
      UnfavoritedConcat(a[1..], b, id);
    }
  }

  /** A user, with the fields the model reads and updates. */
  class User {
    const id: string
    var username: string
    var email: string
    var favorites: seq<string>

    /** A new user; the `lowercase` setters lowercase the username and the email. */
    constructor (id: string, username: string, email: string)
      ensures this.id == id && this.username == LowerAscii(username) && this.email == LowerAscii(email)
      ensures favorites == []
    {
      this.id := id;
      this.username := LowerAscii(username);
      this.email := LowerAscii(email);
      favorites := [];
    }

    /** The validation errors of the username and email paths. */
    function Errors(): (e: map<string, string>)
      reads this
      ensures "username" in e <==> !UsernameMatches(username)
      ensures "email" in e <==> email == "" || !EmailMatches(email)
      ensures e.Keys <= {"username", "email"}
    {
      var u := FieldError(username, UsernameMatches(username));
      var m := FieldError(email, EmailMatches(email));
      (if u.Some? then map["username" := u.value] else map[])
        + (if m.Some? then map["email" := m.value] else map[])
    }

    /** `toJSON()`: only the id and the username. */
    function ToJson(): (o: map<string, Json>)
      reads this
      ensures o.Keys == {"id", "username"}
      ensures o["id"] == JStr(id) && o["username"] == JStr(username)
    {
      map["id" := JStr(id), "username" := JStr(username)]
    }

    /** `isFavorite(id)`: some favourite has the same string form. */
    function IsFavorite(upload: string): (b: bool)
      reads this
      ensures b <==> upload in favorites
    {
      exists i :: 0 <= i < |favorites| && favorites[i] == upload
    }

    method Favorite(upload: string)
      modifies this`favorites
      ensures favorites == Favorited(old(favorites), upload)
      ensures IsFavorite(upload)
    {
      if IndexOf(favorites, upload) == -1 {
        favorites := favorites + [upload];
      }
    }

    method Unfavorite(upload: string)
      modifies this`favorites
      ensures favorites == Unfavorited(old(favorites), upload)
      ensures !IsFavorite(upload)
    {
      favorites := Unfavorited(favorites, upload);
    }
  }
}
