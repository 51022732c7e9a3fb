/** Which of a buyer's long-term preferences accompany a request. */
module Preferences {
  import opened Common
  import opened IntentTasks
  import opened Ranking

  datatype Kind = Like | Dislike

  datatype Preference = Preference(buyerId: string, kind: Kind, statement: string, createdAt: string)

  type Vector = seq<real>

  /** What the embedder answered: the vectors of the likes and of the query; None if it failed. */
  type Embeddings = Option<(seq<Vector>, Vector)>

  datatype Selector = Selector(relevance: bool, similarity: (Vector, Vector) -> real)

  // ---------------------------------------------------------------- selecting

  function OfKind(preferences: seq<Preference>, kind: Kind): seq<Preference> {
    if preferences == [] then []
    else
      var last := preferences[|preferences| - 1];
      OfKind(preferences[..|preferences| - 1], kind) + if last.kind == kind then [last] else []
  }

  function Times(likes: seq<Preference>): seq<Key> {
    seq(|likes|, i requires 0 <= i < |likes| => Time(likes[i].createdAt))
  }

  function Similarities(s: Selector, vectors: seq<Vector>, query: Vector): seq<Key> {
    seq(|vectors|, i requires 0 <= i < |vectors| => Score(s.similarity(vectors[i], query)))
  }

  predicate UsableVectors(likes: seq<Preference>, answer: Embeddings) {
    && answer.Some?
    && |answer.value.0| == |likes|
    && answer.value.1 != []
    && forall v <- answer.value.0 :: |v| == |answer.value.1|
  }

  /** By similarity to the query if that is switched on and the embedder gave usable vectors, else by recency. */
  function ActiveKeys(s: Selector, likes: seq<Preference>, query: string, answer: Embeddings): (keys: seq<Key>)
    ensures |keys| == |likes|
  {
    if s.relevance && Strip(query) != [] && UsableVectors(likes, answer)
    then Similarities(s, answer.value.0, answer.value.1)
    else Times(likes)
  }

  function ValuesAt(likes: seq<Preference>, order: seq<nat>): set<Preference> {
    set i | i in order && i < |likes| :: likes[i]
  }

  /** The likes whose value is among the selected values, in their own order. */
  function Among(likes: seq<Preference>, selected: set<Preference>): seq<Preference> {
    if likes == [] then []
    else
      var last := likes[|likes| - 1];
      Among(likes[..|likes| - 1], selected) + if last in selected then [last] else []
  }

  /** The positions of the likes ranked first. */
  function Top(keys: seq<Key>, topK: nat): seq<nat> {
    if |keys| <= topK then Ranked(keys, |keys|)
    else
      RankedFacts(keys, |keys|);
      Ranked(keys, |keys|)[..topK]
  }

  function Select(s: Selector, preferences: seq<Preference>, query: string, topK: int, answer: Embeddings): seq<Preference> {
    if preferences == [] then []
    else
      var dislikes, likes := OfKind(preferences, Dislike), OfKind(preferences, Like);
      if topK <= 0 then dislikes
      else if |likes| <= topK then dislikes + likes
      else dislikes + Among(likes, ValuesAt(likes, Top(ActiveKeys(s, likes, query, answer), topK)))
  }

  // ---------------------------------------------------------------- what is selected

  /** The members at the positions in `at`, in ascending order: a subsequence of `xs`. */
  function PickAt(xs: seq<Preference>, at: set<nat>): seq<Preference> {
    if xs == [] then []
    else PickAt(xs[..|xs| - 1], at) + if |xs| - 1 in at then [xs[|xs| - 1]] else []
  }

  predicate Within(at: set<nat>, n: nat) {
    forall i <- at :: i < n
  }

  lemma {:induction false} PickAtSize(xs: seq<Preference>, at: set<nat>)
    requires Within(at, |xs|)
    ensures |PickAt(xs, at)| == |at|
  {
    if xs == [] {
      assert at == {};
    } else {
      var n := |xs| - 1;
      PickAtSize(xs[..n], at - {n});
      PickAtIgnores(xs[..n], at, n);
    }
  }

  lemma {:induction false} PickAtIgnores(xs: seq<Preference>, at: set<nat>, n: nat)
    requires |xs| <= n
    ensures PickAt(xs, at - {n}) == PickAt(xs, at)
  {
    if xs != [] {
      PickAtIgnores(xs[..|xs| - 1], at, n);
    }
  }

  function PositionsAmong(likes: seq<Preference>, selected: set<Preference>): set<nat> {
    set i: nat | i < |likes| && likes[i] in selected
  }

  lemma {:induction false} AmongPicks(likes: seq<Preference>, selected: set<Preference>, at: set<nat>)
    requires forall i: nat | i < |likes| :: i in at <==> likes[i] in selected
    ensures Among(likes, selected) == PickAt(likes, at)
  {
    if likes != [] {
      AmongPicks(likes[..|likes| - 1], selected, at);
    }
  }

  /** Equal likes do not stand on both sides of the cut. */
  predicate CutIsClean(likes: seq<Preference>, keys: seq<Key>, topK: int) {
    0 < topK < |likes| ==>
      forall i: nat, j: nat | i < |likes| && j < |likes| && i in Top(keys, topK) && j !in Top(keys, topK) :: likes[i] != likes[j]
  }

  predicate Distinct(preferences: seq<Preference>) {
    forall i, j | 0 <= i < j < |preferences| :: preferences[i] != preferences[j]
  }

  /** The positions ranked first: as many as asked for, and none of the others is ranked before one of them. */
  lemma TopIsTop(keys: seq<Key>, topK: nat)
    ensures Within(AsSet(Top(keys, topK)), |keys|)
    ensures |AsSet(Top(keys, topK))| == if |keys| <= topK then |keys| else topK
    ensures forall i, j: nat | i in Top(keys, topK) && j < |keys| && j !in Top(keys, topK) :: Before(keys, i, j)
  {
    RankedFacts(keys, |keys|);
    var order, top := Ranked(keys, |keys|), Top(keys, topK);
    assert InOrder(keys, top);
    OrderSize(keys, top);
    assert forall i <- top :: i in order;
    forall i, j: nat | i in top && j < |keys| && j !in top ensures Before(keys, i, j) {
      var p :| 0 <= p < |top| && top[p] == i;
      assert j in order;
      var q :| 0 <= q < |order| && order[q] == j;
      assert forall r | 0 <= r < |top| :: order[r] in top;
      assert order[p] == i;
    }
  }

  /** Preferences are selected well when every dislike comes first, followed by the likes at some positions,
      in their own order, as many as asked for, none of the others being ranked before one of them. */
  ghost predicate SelectedWell(result: seq<Preference>, preferences: seq<Preference>, keys: seq<Key>, topK: int, at: set<nat>) {
    var likes := OfKind(preferences, Like);
    && result == OfKind(preferences, Dislike) + PickAt(likes, at)
    && Within(at, |likes|)
    && |at| == (if topK <= 0 then 0 else if |likes| <= topK then |likes| else topK)
    && forall i, j: nat | i in at && j < |likes| && j !in at :: Before(keys, i, j)
  }

  lemma {:induction false} PickAtAll(xs: seq<Preference>, at: set<nat>)
    requires forall i: nat | i < |xs| :: i in at
    ensures PickAt(xs, at) == xs
  {
    if xs != [] {
      PickAtAll(xs[..|xs| - 1], at);
    }
  }

  lemma {:induction false} PickAtNone(xs: seq<Preference>)
    ensures PickAt(xs, {}) == []
  {
    if xs != [] {
      PickAtNone(xs[..|xs| - 1]);
    }
  }

  /** The selection is the right one whenever equal likes are not cut apart. */
  lemma SelectSelectsWell(s: Selector, preferences: seq<Preference>, query: string, topK: int, answer: Embeddings)
    returns (at: set<nat>)
    requires CutIsClean(OfKind(preferences, Like), ActiveKeys(s, OfKind(preferences, Like), query, answer), topK)
    ensures SelectedWell(Select(s, preferences, query, topK, answer), preferences,
                         ActiveKeys(s, OfKind(preferences, Like), query, answer), topK, at)
  {
    var likes := OfKind(preferences, Like);
    var keys := ActiveKeys(s, likes, query, answer);
    hide ActiveKeys, OfKind, PickAt, Among, Before, Ranked;
    if topK <= 0 || preferences == [] {
      at := {};
      PickAtNone(likes);
      NoPreferences();
      assert Select(s, preferences, query, topK, answer) == OfKind(preferences, Dislike) + [];
    } else if |likes| <= topK {
      at := Below(|likes|);
      PickAtAll(likes, at);
    } else {
      TopIsTop(keys, topK);
      at := AsSet(Top(keys, topK));
      CleanCutKeepsTop(likes, keys, topK);
    }
  }

  lemma NoPreferences()
    ensures OfKind([], Like) == [] && OfKind([], Dislike) == []
  {
  }

  lemma CleanCutKeepsTop(likes: seq<Preference>, keys: seq<Key>, topK: nat)
    requires |keys| == |likes| && 0 < topK < |likes| && CutIsClean(likes, keys, topK)
    ensures Among(likes, ValuesAt(likes, Top(keys, topK))) == PickAt(likes, AsSet(Top(keys, topK)))
  {
    hide Top;
    var selected := ValuesAt(likes, Top(keys, topK));
    forall i: nat | i < |likes| ensures i in AsSet(Top(keys, topK)) <==> likes[i] in selected {
      if likes[i] in selected {
        var j :| j in Top(keys, topK) && j < |likes| && likes[j] == likes[i];
      }
    }
    AmongPicks(likes, selected, AsSet(Top(keys, topK)));
  }

  /** The number of likes is the one asked for exactly if equal likes are not cut apart; otherwise there are more. */
  lemma SelectedCount(s: Selector, preferences: seq<Preference>, query: string, topK: int, answer: Embeddings)
    ensures var likes := OfKind(preferences, Like);
            var asked := if topK <= 0 then 0 else if |likes| <= topK then |likes| else topK;
            var kept := |Select(s, preferences, query, topK, answer)| - |OfKind(preferences, Dislike)|;
            kept >= asked && (kept == asked <==> CutIsClean(likes, ActiveKeys(s, likes, query, answer), topK))
  {
    var likes := OfKind(preferences, Like);
    var keys := ActiveKeys(s, likes, query, answer);
    hide ActiveKeys, PickAt, Among, Before, Ranked, Top;
    NoPreferences();
    if 0 < topK < |likes| {
      hide OfKind;
      var top := Top(keys, topK);
      var selected := ValuesAt(likes, top);
      var at := PositionsAmong(likes, selected);
      TopIsTop(keys, topK);
      AmongPicks(likes, selected, at);
      PickAtSize(likes, at);
      assert AsSet(top) <= at by {
        forall i | i in AsSet(top) ensures i in at {
          assert i < |likes| && likes[i] in selected;
        }
      }
      SubsetSize(AsSet(top), at);
      if CutIsClean(likes, keys, topK) {
        forall i | i in at ensures i in AsSet(top) {
          var j :| j in top && j < |likes| && likes[j] == likes[i];
        }
        assert at == AsSet(top);
      } else {
        var i: nat, j: nat :| i < |likes| && j < |likes| && i in top && j !in top && likes[i] == likes[j];
        assert j in at && j !in AsSet(top);
      }
    }
  }

  /** Preferences without repetition are never cut apart. */
  lemma DistinctIsClean(preferences: seq<Preference>, keys: seq<Key>, topK: int)
    requires Distinct(preferences)
    ensures CutIsClean(OfKind(preferences, Like), keys, topK)
  {
    hide Top;
    OfKindIsDistinct(preferences, Like);
    var likes := OfKind(preferences, Like);
    hide OfKind;
    if 0 < topK < |likes| {
      forall i: nat, j: nat | i < |likes| && j < |likes| && i in Top(keys, topK) && j !in Top(keys, topK)
        ensures likes[i] != likes[j]
      {
        assert i < j || j < i;
      }
    }
  }

  lemma {:induction false} OfKindIsDistinct(preferences: seq<Preference>, kind: Kind)
    requires Distinct(preferences)
    ensures Distinct(OfKind(preferences, kind))
    ensures forall p <- OfKind(preferences, kind) :: p in preferences
  {
    if preferences != [] {
      var front, last := preferences[..|preferences| - 1], preferences[|preferences| - 1];
      OfKindIsDistinct(front, kind);
      var rest := OfKind(front, kind);
      forall i | 0 <= i < |rest| ensures rest[i] != last {
        assert rest[i] in rest && rest[i] in front;
        var j :| 0 <= j < |front| && front[j] == rest[i];
      }
    }
  }

  /** Asked for one of two equal likes, the selector keeps both. */
  lemma EqualLikesAreBothKept(s: Selector, like: Preference, query: string, answer: Embeddings)
    requires like.kind == Like
    ensures Select(s, [like, like], query, 1, answer) == [like, like]
  {
    hide ActiveKeys, Ranked;
    var likes := [like, like];
    BothAreLikes(like);
    var keys := ActiveKeys(s, likes, query, answer);
    var top := Top(keys, 1);
    TopIsTop(keys, 1);
    assert |AsSet(top)| == 1;
    var i :| i in AsSet(top);
    assert i < 2 && likes[i] == like && like in ValuesAt(likes, top);
    assert likes[..1] == [like] && [like][..0] == [];
    assert Among([like], ValuesAt(likes, top)) == [like];
  }

  lemma BothAreLikes(like: Preference)
    requires like.kind == Like
    ensures OfKind([like, like], Like) == [like, like] && OfKind([like, like], Dislike) == []
  {
    assert [like, like][..1] == [like] && [like][..0] == [];
    assert OfKind([like], Like) == [like] && OfKind([like], Dislike) == [];
  }

  // ---------------------------------------------------------------- recency and relevance

  /** Texts compare by the first character in which they differ, and a text comes after its own beginnings. */
  ghost predicate ComesAfter(b: string, a: string) {
    exists k: nat :: k < |b| && k <= |a| && a[..k] == b[..k] && (k == |a| || a[k] < b[k])
  }

  lemma FirstDecides(a: string, b: string)
    requires a != [] && b != [] && a[0] != b[0]
    ensures ComesAfter(b, a) <==> a[0] < b[0]
  {
    assert a[..0] == b[..0];
    assert forall k: nat | 0 < k <= |a| && k <= |b| :: a[..k][0] == a[0] && b[..k][0] == b[0];
  }

  lemma SameFirstDecidesNothing(a: string, b: string)
    requires a != [] && b != [] && a[0] == b[0]
    ensures ComesAfter(b, a) <==> ComesAfter(b[1..], a[1..])
  {
    if ComesAfter(b[1..], a[1..]) {
      var k: nat :| k < |b[1..]| && k <= |a[1..]| && a[1..][..k] == b[1..][..k] && (k == |a[1..]| || a[1..][k] < b[1..][k]);
      assert a[..k + 1] == [a[0]] + a[1..][..k] && b[..k + 1] == [b[0]] + b[1..][..k];
    }
    if ComesAfter(b, a) {
      var k: nat :| k < |b| && k <= |a| && a[..k] == b[..k] && (k == |a| || a[k] < b[k]);
      assert k > 0;
      assert a[1..][..k - 1] == a[..k][1..] && b[1..][..k - 1] == b[..k][1..];
    }
  }

  lemma {:induction false} TextLessIsComesAfter(a: string, b: string)
    ensures TextLess(a, b) <==> ComesAfter(b, a)
  {
    if b != [] {
      if a == [] {
        assert a[..0] == b[..0];
      } else if a[0] != b[0] {
        FirstDecides(a, b);
      } else {
        SameFirstDecidesNothing(a, b);
        TextLessIsComesAfter(a[1..], b[1..]);
      }
    }
  }

  lemma {:induction false} AmongMembers(likes: seq<Preference>, selected: set<Preference>)
    ensures forall x :: x in Among(likes, selected) <==> x in likes && x in selected
  {
    if likes != [] {
      var front, last := likes[..|likes| - 1], likes[|likes| - 1];
      AmongMembers(front, selected);
      assert forall x :: x in likes <==> x in front || x == last;
    }
  }

  lemma {:induction false} OfKindMembers(preferences: seq<Preference>, kind: Kind)
    ensures forall x :: x in OfKind(preferences, kind) <==> x in preferences && x.kind == kind
  {
    if preferences != [] {
      var front, last := preferences[..|preferences| - 1], preferences[|preferences| - 1];
      OfKindMembers(front, kind);
      assert forall x :: x in preferences <==> x in front || x == last;
    }
  }

  /** Relevance decides only if it is switched on, the query is not blank and the embedder gave usable vectors. */
  predicate RelevanceDecides(s: Selector, preferences: seq<Preference>, query: string, answer: Embeddings) {
    && s.relevance && Strip(query) != []
    && answer.Some? && |answer.value.0| == |OfKind(preferences, Like)|
    && |answer.value.1| > 0 && forall v <- answer.value.0 :: |v| == |answer.value.1|
  }

  /** Without relevance no omitted like is newer than a kept one, whatever likes are equal. */
  lemma RecencyKeepsTheNewest(s: Selector, preferences: seq<Preference>, query: string, topK: int, answer: Embeddings)
    requires !RelevanceDecides(s, preferences, query, answer)
    ensures var kept := Select(s, preferences, query, topK, answer);
            forall x <- kept, y <- preferences | x.kind == Like && y.kind == Like && y !in kept :: !ComesAfter(y.createdAt, x.createdAt)
  {
    var likes := OfKind(preferences, Like);
    OfKindMembers(preferences, Like);
    OfKindMembers(preferences, Dislike);
    var kept := Select(s, preferences, query, topK, answer);
    var keys := Times(likes);
    assert ActiveKeys(s, likes, query, answer) == keys;
    hide ActiveKeys, OfKind, RelevanceDecides, ComesAfter, TextLess, Strip, UsableVectors, Among;
    if 0 < topK < |likes| {
      var top := Top(keys, topK);
      TopIsTop(keys, topK);
      AmongMembers(likes, ValuesAt(likes, top));
      forall x <- kept, y <- preferences | x.kind == Like && y.kind == Like && y !in kept
        ensures !ComesAfter(y.createdAt, x.createdAt)
      {
        assert x in ValuesAt(likes, top) && y in likes && y !in ValuesAt(likes, top);
        var i: nat :| i in top && i < |likes| && likes[i] == x;
        var j: nat :| j < |likes| && likes[j] == y;
        assert j !in top;
        assert Before(keys, i, j);
        KeyLessIsOrder(keys[i], keys[j], keys[j]);
        TextLessIsComesAfter(x.createdAt, y.createdAt);
      }
    }
  }

  /** With relevance, and equal likes not cut apart, no omitted like is more similar to the query than a kept one. */
  lemma RelevanceKeepsTheMostSimilar(s: Selector, preferences: seq<Preference>, query: string, topK: int, answer: Embeddings)
    returns (at: set<nat>)
    requires RelevanceDecides(s, preferences, query, answer)
    requires CutIsClean(OfKind(preferences, Like), ActiveKeys(s, OfKind(preferences, Like), query, answer), topK)
    ensures var likes := OfKind(preferences, Like);
            && Within(at, |likes|)
            && Select(s, preferences, query, topK, answer) == OfKind(preferences, Dislike) + PickAt(likes, at)
            && forall i, j: nat | i in at && j < |likes| && j !in at ::
                 s.similarity(answer.value.0[j], answer.value.1) <= s.similarity(answer.value.0[i], answer.value.1)
  {
    hide PickAt, Strip, OfKind, TextLess;
    at := SelectSelectsWell(s, preferences, query, topK, answer);
    var likes := OfKind(preferences, Like);
    var keys := ActiveKeys(s, likes, query, answer);
    forall i, j: nat | i in at && j < |likes| && j !in at
      ensures s.similarity(answer.value.0[j], answer.value.1) <= s.similarity(answer.value.0[i], answer.value.1)
    {
      assert Before(keys, i, j);
    }
  }
}
