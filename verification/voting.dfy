/** The voting concern: the Vote collection with its unique index on (author, document), the
    save and remove hooks that keep every votable document's `voting.sum` equal to the total
    impact of its votes, and the `vote` method the plugin gives every votable document type.
    The database is one `VoteStore` object: the Vote collection and each votable document's
    model name and sum. */
module Voting {
  import opened Js

  /** The status of a rejected impact (http-status BAD_REQUEST). */
  const BadRequest := 400

  /** One Vote record: its id, the voting user, the target's model name and id, the impact. */
  datatype Vote = Vote(id: nat, author: string, model: string, document: string, impact: int)

  /** A votable document as voting sees it: its model name and its `voting.sum`. */
  datatype Votable = Votable(model: string, sum: int)

  /** The `validate` option of the plugin: a validator for impacts and the message of the
      error it causes. */
  datatype Policy = Policy(accepts: int -> bool, message: string)

  /** What `vote` reports: a rejected impact (with its status), or the unique index refusing
      a second vote by the same author on the same document. */
  datatype Failure = Invalid(error: HttpError) | DuplicateKey

  /** The options the plugin falls back to when it is registered without any: every impact
      passes, and the message is empty (`new Error(undefined)`). */
  function DefaultPolicy(): (p: Policy)
    ensures forall i: int {:trigger p.accepts(i)} :: p.accepts(i)
    ensures p.message == ""
  {
    Policy(_ => true, "")
  }

  /** The impact `vote` uses: an omitted impact counts as 1. */
  function ImpactOf(impact: Option<int>): (i: int)
    ensures impact.None? ==> i == 1
    ensures impact.Some? ==> i == impact.value
  {
    if impact.Some? then impact.value else 1
  }

  predicate SameKey(v: Vote, author: string, d: string) {
    v.author == author && v.document == d
  }

  /** Two votes the unique index lets live side by side. */
  predicate Apart(u: Vote, w: Vote) {
    u.id != w.id && !SameKey(w, u.author, u.document)
  }

  /** The impact `v` contributes to the sum of document `d`. */
  function ImpactOn(v: Vote, d: string): int {
    if v.document == d then v.impact else 0
  }

  /** The total impact of the votes on document `d`. */
  function TotalImpact(votes: seq<Vote>, d: string): int {
    ImpactOfFirst(votes, |votes|, d)
  }

  /** The total impact on `d` of the first `n` votes. The functions over the collection
      count through it by position rather than by slicing it. */
  function ImpactOfFirst(votes: seq<Vote>, n: nat, d: string): int
    requires n <= |votes|
  {
    if n == 0 then 0 else ImpactOfFirst(votes, n - 1, d) + ImpactOn(votes[n - 1], d)
  }

  /** `Vote.find({author, "ref.document": d})`: the votes of `author` on `d`, in collection order. */
  function VotesBy(votes: seq<Vote>, author: string, d: string): (r: seq<Vote>)
    ensures |r| <= |votes|
  {
    VotesByFirst(votes, |votes|, author, d)
  }

  function VotesByFirst(votes: seq<Vote>, n: nat, author: string, d: string): (r: seq<Vote>)
    requires n <= |votes|
    ensures |r| <= n
  {
    if n == 0 then []
    else
      var last := votes[n - 1];
      VotesByFirst(votes, n - 1, author, d) + (if SameKey(last, author, d) then [last] else [])
  }

  /** The collection after the record with id `id` is deleted. */
  function Without(votes: seq<Vote>, id: nat): (r: seq<Vote>)
    ensures |r| <= |votes|
  {
    WithoutFirst(votes, |votes|, id)
  }

  function WithoutFirst(votes: seq<Vote>, n: nat, id: nat): (r: seq<Vote>)
    requires n <= |votes|
    ensures |r| <= n
  {
    if n == 0 then []
    else
      var last := votes[n - 1];
      WithoutFirst(votes, n - 1, id) + (if last.id == id then [] else [last])
  }

  /** The collection after every vote of `author` on `d` is deleted. */
  function WithoutKey(votes: seq<Vote>, author: string, d: string): (r: seq<Vote>)
    ensures |r| <= |votes|
  {
    WithoutKeyFirst(votes, |votes|, author, d)
  }

  function WithoutKeyFirst(votes: seq<Vote>, n: nat, author: string, d: string): (r: seq<Vote>)
    requires n <= |votes|
    ensures |r| <= n
  {
    if n == 0 then []
    else
      var last := votes[n - 1];
      WithoutKeyFirst(votes, n - 1, author, d) + (if SameKey(last, author, d) then [] else [last])
  }

  /** The first `n` votes count as the collection cut to its first `n`: each function above
      is the one over the prefix, followed by what the vote at `n - 1` adds. */
  lemma {:induction false} FirstPrefix(votes: seq<Vote>, n: nat, author: string, d: string, id: nat)
    requires n <= |votes|
    decreases n
    ensures ImpactOfFirst(votes, n, d) == TotalImpact(votes[..n], d)
    ensures VotesByFirst(votes, n, author, d) == VotesBy(votes[..n], author, d)
    ensures WithoutFirst(votes, n, id) == Without(votes[..n], id)
    ensures WithoutKeyFirst(votes, n, author, d) == WithoutKey(votes[..n], author, d)
  {
    if n > 0 {
      FirstPrefix(votes, n - 1, author, d, id);
      FirstPrefix(votes[..n], n - 1, author, d, id);
      assert votes[..n][..n - 1] == votes[..n - 1];
    }
  }

  /** The functions over a non-empty collection, in terms of its prefix and its last vote. */
  lemma Peel(votes: seq<Vote>, author: string, d: string, id: nat)
    requires votes != []
    ensures var prefix, last := votes[..|votes| - 1], votes[|votes| - 1];
      && TotalImpact(votes, d) == TotalImpact(prefix, d) + ImpactOn(last, d)
      && VotesBy(votes, author, d) == VotesBy(prefix, author, d) + (if SameKey(last, author, d) then [last] else [])
      && Without(votes, id) == Without(prefix, id) + (if last.id == id then [] else [last])
      && WithoutKey(votes, author, d) == WithoutKey(prefix, author, d) + (if SameKey(last, author, d) then [] else [last])
  {
    FirstPrefix(votes, |votes| - 1, author, d, id);
  }

  /** `find` returns exactly the votes with the key. */
  lemma {:induction false} VotesByMembers(votes: seq<Vote>, author: string, d: string)
    ensures forall v :: v in VotesBy(votes, author, d) <==> v in votes && SameKey(v, author, d)
  {
    if votes != [] {
      var prefix := votes[..|votes| - 1];
      Peel(votes, author, d, 0);
      VotesByMembers(prefix, author, d);
      assert votes == prefix + [votes[|votes| - 1]];
    }
  }

  /** Deleting by id keeps exactly the votes with another id. */
  lemma {:induction false} WithoutMembers(votes: seq<Vote>, id: nat)
    ensures forall v :: v in Without(votes, id) <==> v in votes && v.id != id
  {
    if votes != [] {
      var prefix := votes[..|votes| - 1];
      Peel(votes, "", "", id);
      WithoutMembers(prefix, id);
      assert votes == prefix + [votes[|votes| - 1]];
    }
  }

  /** Deleting by key keeps exactly the votes with another key. */
  lemma {:induction false} WithoutKeyMembers(votes: seq<Vote>, author: string, d: string)
    ensures forall v :: v in WithoutKey(votes, author, d) <==> v in votes && !SameKey(v, author, d)
  {
    if votes != [] {
      var prefix := votes[..|votes| - 1];
      Peel(votes, author, d, 0);
      WithoutKeyMembers(prefix, author, d);
      assert votes == prefix + [votes[|votes| - 1]];
    }
  }

  /** The unique index on (author, document), together with unique record ids: every vote
      is apart from every earlier one. */
  ghost predicate UniqueKeys(votes: seq<Vote>) {
    forall i, j :: 0 <= i < j < |votes| ==> Apart(votes[i], votes[j])
  }

  lemma TotalImpactSnoc(votes: seq<Vote>, v: Vote, d: string)
    ensures TotalImpact(votes + [v], d) == TotalImpact(votes, d) + ImpactOn(v, d)
  {
    Peel(votes + [v], "", d, 0);
    assert (votes + [v])[..|votes|] == votes;
  }

  lemma {:induction false} TotalImpactAppend(a: seq<Vote>, b: seq<Vote>, d: string)
    ensures TotalImpact(a + b, d) == TotalImpact(a, d) + TotalImpact(b, d)
    decreases |b|
  {
    if b == [] {
      assert a + b == a;
    } else {
      assert (a + b)[..|a + b| - 1] == a + b[..|b| - 1];
      Peel(a + b, "", d, 0);
      Peel(b, "", d, 0);
      TotalImpactAppend(a, b[..|b| - 1], d);
    }
  }

  /** A document no vote refers to has total impact 0. */
  lemma {:induction false} TotalImpactUnreferenced(votes: seq<Vote>, d: string)
    requires forall v :: v in votes ==> v.document != d
    ensures TotalImpact(votes, d) == 0
  {
    if votes != [] {
      assert votes[|votes| - 1] in votes;
      Peel(votes, "", d, 0);
      TotalImpactUnreferenced(votes[..|votes| - 1], d);
    }
  }

  lemma {:induction false} WithoutAbsent(votes: seq<Vote>, id: nat)
    requires forall v :: v in votes ==> v.id != id
    ensures Without(votes, id) == votes
  {
    if votes != [] {
      assert votes[|votes| - 1] in votes;
      Peel(votes, "", "", id);
      WithoutAbsent(votes[..|votes| - 1], id);
      assert votes[..|votes| - 1] + [votes[|votes| - 1]] == votes;
    }
  }

  /** `find` returns nothing when no vote has the key. */
  lemma {:induction false} NoVotesBy(votes: seq<Vote>, author: string, d: string)
    requires forall v :: v in votes ==> !SameKey(v, author, d)
    ensures VotesBy(votes, author, d) == []
  {
    if votes != [] {
      assert votes[|votes| - 1] in votes;
      Peel(votes, author, d, 0);
      NoVotesBy(votes[..|votes| - 1], author, d);
    }
  }

  lemma {:induction false} WithoutKeyAbsent(votes: seq<Vote>, author: string, d: string)
    requires VotesBy(votes, author, d) == []
    ensures WithoutKey(votes, author, d) == votes
  {
    if votes != [] {
      var last := votes[|votes| - 1];
      var prefix := votes[..|votes| - 1];
      Peel(votes, author, d, 0);
      WithoutKeyAbsent(prefix, author, d);
      assert prefix + [last] == votes;
    }
  }

  /** Under the unique index, `find` returns at most one vote. */
  lemma {:induction false} AtMostOne(votes: seq<Vote>, author: string, d: string)
    requires UniqueKeys(votes)
    ensures |VotesBy(votes, author, d)| <= 1
  {
    if votes != [] {
      var prefix := votes[..|votes| - 1];
      var last := votes[|votes| - 1];
      Peel(votes, author, d, 0);
      AtMostOne(prefix, author, d);
      if SameKey(last, author, d) {
        forall w | w in prefix ensures !SameKey(w, author, d) {
          assert Apart(w, last);
        }
        NoVotesBy(prefix, author, d);
      }
    }
  }

  lemma {:induction false} UniqueKeysWithout(votes: seq<Vote>, id: nat)
    requires UniqueKeys(votes)
    ensures UniqueKeys(Without(votes, id))
  {
    if votes != [] {
      var prefix := votes[..|votes| - 1];
      Peel(votes, "", "", id);
      UniqueKeysWithout(prefix, id);
      var last := votes[|votes| - 1];
      var rest := Without(prefix, id);
      WithoutMembers(prefix, id);
      if last.id != id {
        forall u | u in rest ensures Apart(u, last) {
          assert u in prefix;
        }
        UniqueKeysAppend(rest, last);
        assert Without(votes, id) == rest + [last];
      } else {
        assert Without(votes, id) == rest;
      }
    }
  }

  lemma {:induction false} UniqueKeysAppend(votes: seq<Vote>, v: Vote)
    requires UniqueKeys(votes) && forall u :: u in votes ==> Apart(u, v)
    ensures UniqueKeys(votes + [v])
  {
    assert (votes + [v])[..|votes|] == votes;
  }

  /** Deleting one record takes exactly its impact off its document's total. */
  lemma {:induction false} TotalImpactWithout(votes: seq<Vote>, v: Vote, d: string)
    requires UniqueKeys(votes) && v in votes
    ensures TotalImpact(Without(votes, v.id), d) == TotalImpact(votes, d) - ImpactOn(v, d)
  {
    var prefix := votes[..|votes| - 1];
    var last := votes[|votes| - 1];
    Peel(votes, "", d, v.id);
    if last == v {
      forall u | u in prefix ensures u.id != v.id {
        assert Apart(u, last);
      }
      WithoutAbsent(prefix, v.id);
      assert Without(votes, v.id) == prefix;
    } else {
      assert v in prefix by {
        assert votes == prefix + [last];
      }
      assert Apart(v, last);
      TotalImpactWithout(prefix, v, d);
      assert Without(votes, v.id) == Without(prefix, v.id) + [last];
      TotalImpactSnoc(Without(prefix, v.id), last, d);
    }
  }

  /** Under the unique index, deleting the one vote `find` returned is deleting the votes of
      that author on that document. */
  lemma {:induction false} WithoutFound(votes: seq<Vote>, w: Vote)
    requires UniqueKeys(votes) && w in votes
    ensures Without(votes, w.id) == WithoutKey(votes, w.author, w.document)
  {
    var prefix := votes[..|votes| - 1];
    var last := votes[|votes| - 1];
    assert votes == prefix + [last];
    Peel(votes, w.author, w.document, w.id);
    if last == w {
      forall u | u in prefix ensures u.id != w.id && !SameKey(u, w.author, w.document) {
        assert Apart(u, w);
      }
      WithoutAbsent(prefix, w.id);
      NoVotesBy(prefix, w.author, w.document);
      WithoutKeyAbsent(prefix, w.author, w.document);
    } else {
      assert w in prefix && Apart(w, last);
      WithoutFound(prefix, w);
    }
  }

  /** Every document's sum is the total impact of its votes. */
  ghost predicate Balanced(docs: map<string, Votable>, votes: seq<Vote>) {
    forall d {:trigger TotalImpact(votes, d)} :: d in docs ==> docs[d].sum == TotalImpact(votes, d)
  }

  /** `docs` with `delta` added to the sum of document `d`. */
  function Bump(docs: map<string, Votable>, d: string, delta: int): map<string, Votable>
    requires d in docs
  {
    docs[d := docs[d].(sum := docs[d].sum + delta)]
  }

  lemma BumpZero(docs: map<string, Votable>, d: string)
    requires d in docs
    ensures Bump(docs, d, 0) == docs
  {
  }

  lemma BumpTwice(docs: map<string, Votable>, d: string, a: int, b: int)
    requires d in docs
    ensures Bump(Bump(docs, d, -a), d, b) == Bump(docs, d, b - a)
  {
  }

  /** The remove hook keeps the sums balanced: taking `v.impact` off its document's sum
      matches deleting `v`. */
  lemma BalancedAfterRemove(docs: map<string, Votable>, votes: seq<Vote>, v: Vote)
    requires UniqueKeys(votes) && v in votes && v.document in docs && Balanced(docs, votes)
    ensures Balanced(Bump(docs, v.document, -v.impact), Without(votes, v.id))
  {
    var after := Bump(docs, v.document, -v.impact);
    forall e | e in after ensures after[e].sum == TotalImpact(Without(votes, v.id), e) {
      TotalImpactWithout(votes, v, e);
    }
  }

  /** The save hook keeps the sums balanced: adding `v.impact` to its document's sum
      matches appending `v`. */
  lemma BalancedAfterSave(docs: map<string, Votable>, votes: seq<Vote>, v: Vote)
    requires v.document in docs && Balanced(docs, votes)
    ensures Balanced(Bump(docs, v.document, v.impact), votes + [v])
  {
    var after := Bump(docs, v.document, v.impact);
    forall e | e in after ensures after[e].sum == TotalImpact(votes + [v], e) {
      TotalImpactSnoc(votes, v, e);
    }
  }

  /** What removing the votes `find` returned amounts to: nothing when there are none, and
      otherwise deleting the one vote there is, which takes its impact off `d`; after it no
      vote of `author` on `d` is left. */
  lemma FoundVotes(votes: seq<Vote>, author: string, d: string)
    requires UniqueKeys(votes)
    ensures var found := VotesBy(votes, author, d);
            && |found| <= 1
            && (found == [] ==> WithoutKey(votes, author, d) == votes && TotalImpact(found, d) == 0)
            && (found != [] ==> Without(votes, found[0].id) == WithoutKey(votes, author, d)
                                && TotalImpact(found, d) == found[0].impact)
    ensures VotesBy(WithoutKey(votes, author, d), author, d) == []
  {
    var found := VotesBy(votes, author, d);
    AtMostOne(votes, author, d);
    VotesByMembers(votes, author, d);
    WithoutKeyMembers(votes, author, d);
    if found == [] {
      WithoutKeyAbsent(votes, author, d);
    } else {
      assert found[0] in found;
      WithoutFound(votes, found[0]);
      assert found == [found[0]];
      assert TotalImpact(found, d) == found[0].impact by {
        assert ImpactOfFirst(found, 1, d) == ImpactOfFirst(found, 0, d) + ImpactOn(found[0], d);
      }
    }
    NoVotesBy(WithoutKey(votes, author, d), author, d);
  }

  /** Every vote `find` returns is in the collection, by that author, on that document. */
  lemma FoundMember(votes: seq<Vote>, author: string, d: string, j: int)
    requires 0 <= j < |VotesBy(votes, author, d)|
    ensures var w := VotesBy(votes, author, d)[j];
            w in votes && w.author == author && w.document == d
  {
    VotesByMembers(votes, author, d);
    assert VotesBy(votes, author, d)[j] in VotesBy(votes, author, d);
  }

  /** Removing a vote undoes saving it: the save hook adds `v.impact`, the remove hook takes
      it off again, and the collection is as before. */
  lemma RemoveUndoesSave(votes: seq<Vote>, v: Vote, d: string)
    requires forall u :: u in votes ==> u.id != v.id
    ensures Without(votes + [v], v.id) == votes
    ensures TotalImpact(votes + [v], d) == TotalImpact(votes, d) + ImpactOn(v, d)
  {
    WithoutAbsent(votes, v.id);
    Peel(votes + [v], "", d, v.id);
    assert (votes + [v])[..|votes|] == votes;
  }

  /** Casting again the impact a user already cast leaves the document's total unchanged:
      the old vote's impact is taken off and the same impact added back. */
  lemma {:induction false} RecastSameImpact(votes: seq<Vote>, w: Vote, v: Vote)
    requires UniqueKeys(votes) && w in votes
    requires v.author == w.author && v.document == w.document && v.impact == w.impact
    ensures TotalImpact(WithoutKey(votes, w.author, w.document) + [v], w.document) == TotalImpact(votes, w.document)
  {
    WithoutFound(votes, w);
    TotalImpactWithout(votes, w, w.document);
    TotalImpactAppend(WithoutKey(votes, w.author, w.document), [v], w.document);
    assert TotalImpact([v], w.document) == v.impact by {
      assert ImpactOfFirst([v], 1, w.document) == ImpactOfFirst([v], 0, w.document) + ImpactOn(v, w.document);
    }
  }

  /** `Vote.create` in the order the source runs it: the save hook increments the target's
      `voting.sum` first, and only then does the insert meet the unique index, which refuses
      a second vote by the same author on the same document. */
  function SaveAsWritten(docs: map<string, Votable>, votes: seq<Vote>, v: Vote): (r: (map<string, Votable>, seq<Vote>))
    requires v.document in docs
    ensures v.document in r.0 && r.0[v.document].sum == docs[v.document].sum + v.impact
    ensures r.1 == if VotesBy(votes, v.author, v.document) == [] then votes + [v] else votes
  {
    var hooked := docs[v.document := docs[v.document].(sum := docs[v.document].sum + v.impact)];
    (hooked, if VotesBy(votes, v.author, v.document) == [] then votes + [v] else votes)
  }

  /** With a vote by the same author already on the document, the as-written save leaves the
      document's sum off from the total impact of its votes by the new vote's impact. */
  lemma SaveAsWrittenDrifts(docs: map<string, Votable>, votes: seq<Vote>, v: Vote)
    requires v.document in docs && docs[v.document].sum == TotalImpact(votes, v.document)
    requires VotesBy(votes, v.author, v.document) != [] && v.impact != 0
    ensures var r := SaveAsWritten(docs, votes, v);
            r.0[v.document].sum == TotalImpact(r.1, v.document) + v.impact
  {
  }

  /** A concrete instance: Alice's +1 on comment c1 exists; a second `Vote.create` of the
      same vote leaves one record but a sum of 2. */
  lemma SaveAsWrittenExample()
    ensures var w := Vote(0, "alice", "Comment", "c1", 1);
            var r := SaveAsWritten(map["c1" := Votable("Comment", 1)], [w], Vote(1, "alice", "Comment", "c1", 1));
            r.1 == [w] && r.0["c1"].sum == 2 && TotalImpact(r.1, "c1") == 1
  {
    var w := Vote(0, "alice", "Comment", "c1", 1);
    assert w in VotesBy([w], "alice", "c1");
    assert [w][..0] == [];
  }

  class VoteStore {
    /** The Vote collection. */
    var votes: seq<Vote>
    /** Every votable document, by id. */
    var docs: map<string, Votable>
    /** The id the next Vote record gets. */
    var nextId: nat

    /** The unique index holds, every vote refers to an existing document, and each
        document's `voting.sum` is the total impact of its live votes. */
    ghost predicate Valid()
      reads this
    {
      && UniqueKeys(votes)
      && (forall i :: 0 <= i < |votes| ==> votes[i].id < nextId && votes[i].document in docs)
      && Balanced(docs, votes)
    }

    constructor ()
      ensures Valid()
      ensures votes == [] && docs == map[] && nextId == 0
    {
      votes, docs, nextId := [], map[], 0;
    }

    /** A new votable document: the plugin's `voting.sum` field starts at 0. */
    method AddDocument(d: string, model: string)
      requires Valid() && d !in docs
      modifies this
      ensures Valid()
      ensures votes == old(votes) && nextId == old(nextId)
      ensures docs == old(docs)[d := Votable(model, 0)]
    {
      TotalImpactUnreferenced(votes, d);
      docs := docs[d := Votable(model, 0)];
    }

    /** `Vote.create`: the save hook adds the impact to the target's sum and the record is
        inserted. The unique index is consulted before the hook runs (see `SaveAsWritten`
        for the source's order). */
    method Save(author: string, model: string, d: string, impact: int) returns (r: Result<Vote, Failure>)
      requires Valid() && d in docs
      modifies this
      ensures Valid()
      ensures VotesBy(old(votes), author, d) != [] ==>
        r == Err(DuplicateKey) && votes == old(votes) && docs == old(docs) && nextId == old(nextId)
      ensures VotesBy(old(votes), author, d) == [] ==>
        && r == Ok(Vote(old(nextId), author, model, d, impact))
        && votes == old(votes) + [r.value]
        && docs == Bump(old(docs), d, impact)
        && nextId == old(nextId) + 1
    {
      if VotesBy(votes, author, d) != [] {
        return Err(DuplicateKey);
      }
      var v := Vote(nextId, author, model, d, impact);
      VotesByMembers(votes, author, d);
      forall u | u in votes ensures Apart(u, v) {
        assert u !in VotesBy(votes, author, d);
      }
      UniqueKeysAppend(votes, v);
      BalancedAfterSave(docs, votes, v);
      docs := Bump(docs, d, impact);
      votes := votes + [v];
      nextId := nextId + 1;
      r := Ok(v);
    }

    /** `vote.remove()`: the remove hook takes the impact off the target's sum and the
        record is deleted. */
    method Remove(v: Vote)
      requires Valid() && v in votes
      modifies this
      ensures Valid()
      ensures votes == Without(old(votes), v.id) && nextId == old(nextId)
      ensures docs == Bump(old(docs), v.document, -v.impact)
    {
      BalancedAfterRemove(docs, votes, v);
      UniqueKeysWithout(votes, v.id);
      var rest := Without(votes, v.id);
      WithoutMembers(votes, v.id);
      docs := Bump(docs, v.document, -v.impact);
      votes := rest;
    }

    /** `Promise.all(votes.map(vote => vote.remove()))` over the votes `find` returned for
        `user` on `d`: each is removed, and its impact taken off the sum of `d`. Under the
        unique index `find` returns at most one vote, so the mapping removes that one, if
        any. */
    method RemovePrevious(user: string, d: string)
      requires Valid() && d in docs
      modifies this
      ensures Valid()
      ensures votes == WithoutKey(old(votes), user, d) && VotesBy(votes, user, d) == []
      ensures docs == Bump(old(docs), d, -TotalImpact(VotesBy(old(votes), user, d), d))
      ensures nextId == old(nextId)
    {
      var found := VotesBy(votes, user, d);
      ghost var taken := TotalImpact(found, d);
      AtMostOne(votes, user, d);
      FoundVotes(votes, user, d);
      if found != [] {
        var w := found[0];
        FoundMember(votes, user, d, 0);
        assert w.document == d && w.impact == taken;
        Remove(w);
        assert docs == Bump(old(docs), d, -taken);
      } else {
        BumpZero(docs, d);
        assert taken == 0;
        assert docs == Bump(old(docs), d, -taken);
      }
    }

    /** `document.vote(impact, user)` on document `d`: an impact the policy rejects is an
        error with the policy's message and status 400 and changes nothing; otherwise every
        vote of `user` on `d` is removed and one new vote is created. */
    method CastVote(policy: Policy, impact: Option<int>, user: string, d: string) returns (r: Result<Vote, Failure>)
      requires Valid() && d in docs
      modifies this
      ensures Valid()
      ensures !policy.accepts(ImpactOf(impact)) ==>
        && r == Err(Invalid(HttpError(policy.message, BadRequest)))
        && votes == old(votes) && docs == old(docs) && nextId == old(nextId)
      ensures policy.accepts(ImpactOf(impact)) ==>
        && r == Ok(Vote(old(nextId), user, old(docs)[d].model, d, ImpactOf(impact)))
        && votes == WithoutKey(old(votes), user, d) + [r.value]
        && docs == Bump(old(docs), d, ImpactOf(impact) - TotalImpact(VotesBy(old(votes), user, d), d))
        && nextId == old(nextId) + 1
    {
      var amount := ImpactOf(impact);
      if !policy.accepts(amount) {
        return Err(Invalid(HttpError(policy.message, BadRequest)));
      }
      var v := ReplaceVote(user, d, amount);
      r := Ok(v);
    }

    /** The accepted path of `vote`: the user's previous votes on `d` are removed, then the
        new vote is created; the unique index cannot refuse it, since none is left. */
    method ReplaceVote(user: string, d: string, impact: int) returns (v: Vote)
      requires Valid() && d in docs
      modifies this
      ensures Valid()
      ensures v == Vote(old(nextId), user, old(docs)[d].model, d, impact)
      ensures votes == WithoutKey(old(votes), user, d) + [v]
      ensures docs == Bump(old(docs), d, impact - TotalImpact(VotesBy(old(votes), user, d), d))
      ensures nextId == old(nextId) + 1
    {
      ghost var removed := TotalImpact(VotesBy(votes, user, d), d);
      RemovePrevious(user, d);
      ghost var votes1, docs1 := votes, docs;
      assert docs1[d].model == old(docs)[d].model;
      var r := Save(user, docs[d].model, d, impact);
      assert r.Ok? && votes == votes1 + [r.value];
      v := r.value;
      assert docs == Bump(old(docs), d, impact - removed) by {
        assert docs == Bump(docs1, d, impact);
        BumpTwice(old(docs), d, removed, impact);
      }
    }
  }
}
