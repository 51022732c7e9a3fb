/** The check of a rerank reply: every document's index once, each with a numeric score. */
module Reranker {
  import opened Common

  /** A decoded JSON value, as far as the check tells values apart. */
  datatype Json = Int(n: int) | Bool(b: bool) | Float(x: real) | Other

  /** One result: its index, its relevance_score if it has that key, and its score (Other if missing). */
  datatype ResultItem = NoObject | Item(index: Json, relevance: Option<Json>, score: Json)

  datatype RerankError = BadResults | BadIndex | BadScore

  /** isinstance(index, int) holds of booleans too, which are 0 and 1. */
  function AsIndex(v: Json): Option<int> {
    match v
    case Int(n) => Some(n)
    case Bool(b) => Some(if b then 1 else 0)
    case _ => None
  }

  function AsScore(v: Json): Option<real> {
    match v
    case Int(n) => Some(n as real)
    case Float(x) => Some(x)
    case Bool(b) => Some(if b then 1.0 else 0.0)
    case Other => None
  }

  function IndexOf(item: ResultItem): Option<int> {
    if item.Item? then AsIndex(item.index) else None
  }

  /** A relevance_score that is present counts even if it is no number. */
  function ScoreOf(item: ResultItem): Option<real> {
    if item.NoObject? then None else AsScore(if item.relevance.Some? then item.relevance.value else item.score)
  }

  predicate GoodItem(item: ResultItem, n: nat) {
    IndexOf(item).Some? && 0 <= IndexOf(item).value < n && ScoreOf(item).Some?
  }

  /** The replies that are accepted for `n` documents. */
  predicate Acceptable(results: seq<ResultItem>, n: nat) {
    && |results| == n
    && (forall item <- results :: GoodItem(item, n))
    && (forall j, k | 0 <= j < k < n :: IndexOf(results[j]) != IndexOf(results[k]))
  }

  function Indices(results: seq<ResultItem>): set<int> {
    set k | 0 <= k < |results| && IndexOf(results[k]).Some? :: IndexOf(results[k]).value
  }

  lemma {:induction false} IndicesSize(results: seq<ResultItem>)
    requires forall item <- results :: IndexOf(item).Some?
    requires forall j, k | 0 <= j < k < |results| :: IndexOf(results[j]) != IndexOf(results[k])
    ensures |Indices(results)| == |results|
  {
    hide IndexOf;
    if results != [] {
      var front, last := results[..|results| - 1], results[|results| - 1];
      assert last in results && forall item <- front :: item in results;
      IndicesSize(front);
      var i := IndexOf(last).value;
      assert Indices(results) == Indices(front) + {i};
      assert i !in Indices(front);
    }
  }

  /** An accepted reply is a bijection: every slot is filled by exactly one result. */
  lemma EverySlotIsFilledOnce(results: seq<ResultItem>, n: nat, i: nat) returns (k: nat)
    requires Acceptable(results, n) && i < n
    ensures k < n && IndexOf(results[k]) == Some(i)
    ensures forall j | 0 <= j < n :: IndexOf(results[j]) == Some(i) ==> j == k
  {
    hide IndexOf;
    IndicesSize(results);
    assert forall j | 0 <= j < n :: GoodItem(results[j], n) by { assert forall j | 0 <= j < n :: results[j] in results; }
    assert Indices(results) <= Below(n);
    SubsetSize(Indices(results), Below(n));
    assert i in Below(n) && i in Indices(results);
    k :| 0 <= k < n && IndexOf(results[k]) == Some(i);
  }

  /** The scores of a reply: each result's score in the slot of its index. */
  ghost predicate ScoresOf(scores: seq<real>, results: seq<ResultItem>, n: nat) {
    && |scores| == n == |results|
    && forall item <- results :: GoodItem(item, n) && scores[IndexOf(item).value] == ScoreOf(item).value
  }

  /** The scores do not depend on the order in which the results come. */
  lemma ReplyOrderIsIrrelevant(a: seq<real>, b: seq<real>, results: seq<ResultItem>, shuffled: seq<ResultItem>, n: nat)
    requires Acceptable(results, n) && multiset(results) == multiset(shuffled)
    requires ScoresOf(a, results, n) && ScoresOf(b, shuffled, n)
    ensures a == b
  {
    hide GoodItem, IndexOf, ScoreOf;
    forall i | 0 <= i < n ensures a[i] == b[i] {
      var k := EverySlotIsFilledOnce(results, n, i);
      var item := results[k];
      assert item in results && item in multiset(results) && item in multiset(shuffled);
      assert item in shuffled;
    }
  }

  /** A shuffled reply is accepted exactly if the reply is. */
  lemma ShufflingKeepsAcceptance(results: seq<ResultItem>, shuffled: seq<ResultItem>, n: nat)
    requires multiset(results) == multiset(shuffled) && Acceptable(results, n)
    ensures Acceptable(shuffled, n)
  {
    hide GoodItem, IndexOf;
    assert |shuffled| == |multiset(shuffled)| == |multiset(results)| == n;
    forall item <- shuffled ensures GoodItem(item, n) {
      assert item in multiset(shuffled);
    }
    forall j, k | 0 <= j < k < n ensures IndexOf(shuffled[j]) != IndexOf(shuffled[k]) {
      if IndexOf(shuffled[j]) == IndexOf(shuffled[k]) {
        assert shuffled[j] in multiset(shuffled) && shuffled[k] in multiset(shuffled);
        var p :| 0 <= p < n && results[p] == shuffled[j];
        var q :| 0 <= q < n && results[q] == shuffled[k];
        assert p == q;
        TwoPlaces(shuffled, j, k);
        OnePlace(results, p);
      }
    }
  }

  lemma TwoPlaces<T>(xs: seq<T>, j: nat, k: nat)
    requires j < k < |xs| && xs[j] == xs[k]
    ensures multiset(xs)[xs[j]] >= 2
  {
    assert xs == xs[..k] + [xs[k]] + xs[k + 1..];
    assert xs[..k][j] in multiset(xs[..k]);
  }

  lemma OnePlace(results: seq<ResultItem>, p: nat)
    requires p < |results| && forall j, k | 0 <= j < k < |results| :: IndexOf(results[j]) != IndexOf(results[k])
    ensures multiset(results)[results[p]] == 1
  {
    hide IndexOf;
    var before, after := results[..p], results[p + 1..];
    assert results == before + [results[p]] + after;
    assert results[p] !in before && results[p] !in after;
  }

  /** The slot of the item's index has its relevance_score, or its score if it has no such key. */
  predicate ItsScore(item: ResultItem, scores: seq<real>) {
    && item.Item? && AsIndex(item.index).Some? && 0 <= AsIndex(item.index).value < |scores|
    && var score := scores[AsIndex(item.index).value];
       match item.relevance
       case Some(relevance) => AsScore(relevance) == Some(score)
       case None => AsScore(item.score) == Some(score)
  }

  lemma AllHaveTheirScores(scores: seq<real>, results: seq<ResultItem>, n: nat)
    requires ScoresOf(scores, results, n)
    ensures forall item <- results :: ItsScore(item, scores)
  {
  }

  /** rerank: `results` is None if the request failed or the reply has no list of results. */
  method Rerank(documents: nat, results: Option<seq<ResultItem>>) returns (r: Result<seq<real>, RerankError>)
    ensures documents == 0 ==> r == Ok([])
    ensures documents > 0 ==> (r.Ok? <==> results.Some? && Acceptable(results.value, documents))
    ensures documents > 0 && r.Ok? ==> ScoresOf(r.value, results.value, documents)
    ensures documents > 0 && r.Ok? ==>
              forall item <- results.value :: ItsScore(item, r.value)
  {
    hide IndexOf, ScoreOf, ItsScore;
    if documents == 0 {
      return Ok([]);
    }
    if results.None? || |results.value| != documents {
      return Err(BadResults);
    }
    var items := results.value;
    var scores := new real[documents](_ => 0.0);
    var seen: set<int> := {};
    for k := 0 to documents
      invariant forall i :: i in seen <==> Filled(items, k, i)
      invariant forall j | 0 <= j < k :: GoodItem(items[j], documents) && scores[IndexOf(items[j]).value] == ScoreOf(items[j]).value
      invariant forall i, j | 0 <= i < j < k :: IndexOf(items[i]) != IndexOf(items[j])
    {
      var index := IndexOf(items[k]);
      if index.None? || index.value < 0 || index.value >= documents || index.value in seen {
        RefusesAt(items, k, documents);
        return Err(BadIndex);
      }
      FilledNext(items, k);
      seen := seen + {index.value};
      var score := ScoreOf(items[k]);
      if score.None? {
        assert items[k] in items && !GoodItem(items[k], documents);
        return Err(BadScore);
      }
      scores[index.value] := score.value;
    }
    AllHaveTheirScores(scores[..], items, documents);
    return Ok(scores[..]);
  }

  predicate Filled(items: seq<ResultItem>, k: nat, i: int) {
    exists j :: 0 <= j < k && j < |items| && IndexOf(items[j]) == Some(i)
  }

  lemma FilledNext(items: seq<ResultItem>, k: nat)
    requires k < |items|
    ensures forall i :: Filled(items, k + 1, i) <==> Filled(items, k, i) || IndexOf(items[k]) == Some(i)
  {
    forall i ensures Filled(items, k + 1, i) <==> Filled(items, k, i) || IndexOf(items[k]) == Some(i) {
      if Filled(items, k, i) {
        var j :| 0 <= j < k && j < |items| && IndexOf(items[j]) == Some(i);
        assert 0 <= j < k + 1;
      }
    }
  }

  lemma RefusesAt(items: seq<ResultItem>, k: nat, n: nat)
    requires k < |items|
    requires IndexOf(items[k]).None? || !(0 <= IndexOf(items[k]).value < n) || Filled(items, k, IndexOf(items[k]).value)
    ensures !Acceptable(items, n)
  {
    assert items[k] in items;
  }
}
