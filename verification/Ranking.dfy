/** Stable descending ranking: greater keys first, equal keys in their original order. */
module Ranking {
  /** What a ranking compares: similarities, or times as text. */
  datatype Key = Score(score: real) | Time(text: string)

  // ---------------------------------------------------------------- the order of keys

  predicate TextLess(a: string, b: string) {
    if b == [] then false
    else if a == [] then true
    else if a[0] != b[0] then a[0] < b[0]
    else TextLess(a[1..], b[1..])
  }

  predicate KeyLess(a: Key, b: Key) {
    match (a, b)
    case (Score(x), Score(y)) => x < y
    case (Time(x), Time(y)) => TextLess(x, y)
    case (Score(_), Time(_)) => true
    case (Time(_), Score(_)) => false
  }

  lemma {:induction false} TextLessIsTotal(a: string, b: string)
    ensures a == b <==> !TextLess(a, b) && !TextLess(b, a)
    ensures !(TextLess(a, b) && TextLess(b, a))
  {
    if a != [] && b != [] && a[0] == b[0] {
      TextLessIsTotal(a[1..], b[1..]);
      assert a == [a[0]] + a[1..] && b == [b[0]] + b[1..];
    }
  }

  lemma {:induction false} TextLessIsTransitive(a: string, b: string, c: string)
    requires TextLess(a, b) && TextLess(b, c)
    ensures TextLess(a, c)
  {
    if a != [] && a[0] == b[0] == c[0] {
      TextLessIsTransitive(a[1..], b[1..], c[1..]);
    }
  }

  lemma KeyLessIsOrder(a: Key, b: Key, c: Key)
    ensures a == b <==> !KeyLess(a, b) && !KeyLess(b, a)
    ensures !(KeyLess(a, b) && KeyLess(b, a))
    ensures KeyLess(a, b) && KeyLess(b, c) ==> KeyLess(a, c)
  {
    if a.Time? && b.Time? {
      TextLessIsTotal(a.text, b.text);
      if c.Time? && TextLess(a.text, b.text) && TextLess(b.text, c.text) {
        TextLessIsTransitive(a.text, b.text, c.text);
      }
    }
  }

  /** Position i is ranked before position j: a greater key, or the same key and an earlier position. */
  predicate Before(keys: seq<Key>, i: nat, j: nat) {
    i < |keys| && j < |keys| && (KeyLess(keys[j], keys[i]) || (keys[i] == keys[j] && i < j))
  }

  lemma BeforeIsOrder(keys: seq<Key>, i: nat, j: nat, k: nat)
    requires i < |keys| && j < |keys| && k < |keys|
    ensures i != j ==> (Before(keys, i, j) <==> !Before(keys, j, i))
    ensures Before(keys, i, j) && Before(keys, j, k) ==> Before(keys, i, k)
  {
    KeyLessIsOrder(keys[i], keys[j], keys[k]);
    KeyLessIsOrder(keys[k], keys[j], keys[i]);
    KeyLessIsOrder(keys[j], keys[k], keys[i]);
  }

  // ---------------------------------------------------------------- ranking

  function InsertRank(keys: seq<Key>, order: seq<nat>, i: nat): seq<nat> {
    if order == [] || Before(keys, i, order[0]) then [i] + order else [order[0]] + InsertRank(keys, order[1..], i)
  }

  /** The first `n` positions in ranking order. */
  function Ranked(keys: seq<Key>, n: nat): seq<nat> {
    if n == 0 then [] else InsertRank(keys, Ranked(keys, n - 1), n - 1)
  }

  predicate InOrder(keys: seq<Key>, order: seq<nat>) {
    forall p, q | 0 <= p < q < |order| :: Before(keys, order[p], order[q])
  }

  lemma {:induction false} InsertRankFacts(keys: seq<Key>, order: seq<nat>, i: nat)
    requires InOrder(keys, order) && i < |keys| && forall j <- order :: j < |keys| && j != i
    ensures InOrder(keys, InsertRank(keys, order, i))
    ensures |InsertRank(keys, order, i)| == |order| + 1
    ensures forall j :: j in InsertRank(keys, order, i) <==> j == i || j in order
  {
    hide KeyLess;
    var after := InsertRank(keys, order, i);
    if order == [] {
    } else if Before(keys, i, order[0]) {
      forall q | 0 <= q < |order| ensures Before(keys, i, order[q]) {
        assert order[q] in order && order[0] in order;
        BeforeIsOrder(keys, i, order[0], order[q]);
      }
    } else {
      var rest := order[1..];
      assert forall j <- rest :: j in order;
      InsertRankFacts(keys, rest, i);
      assert order[0] in order;
      BeforeIsOrder(keys, i, order[0], i);
      var tail := InsertRank(keys, rest, i);
      assert order == [order[0]] + rest;
      forall q | 0 <= q < |tail| ensures Before(keys, order[0], tail[q]) {
        assert tail[q] in tail;
        if tail[q] != i {
          var r :| 0 <= r < |rest| && rest[r] == tail[q];
          assert Before(keys, order[0], order[r + 1]);
        }
      }
    }
  }

  lemma {:induction false} RankedFacts(keys: seq<Key>, n: nat)
    requires n <= |keys|
    ensures InOrder(keys, Ranked(keys, n)) && |Ranked(keys, n)| == n
    ensures forall j :: j in Ranked(keys, n) <==> 0 <= j < n
  {
    if n > 0 {
      RankedFacts(keys, n - 1);
      InsertRankFacts(keys, Ranked(keys, n - 1), n - 1);
    }
  }

  function AsSet(order: seq<nat>): set<nat> {
    set i | i in order
  }

  lemma {:induction false} OrderSize(keys: seq<Key>, order: seq<nat>)
    requires InOrder(keys, order)
    ensures |AsSet(order)| == |order|
    decreases |order|
  {
    if order != [] {
      var front, last := order[..|order| - 1], order[|order| - 1];
      OrderSize(keys, front);
      assert AsSet(order) == AsSet(front) + {last};
      if last in front {
        var p :| 0 <= p < |front| && front[p] == last;
        assert Before(keys, order[p], order[|order| - 1]);
        BeforeIsOrder(keys, last, last, last);
        KeyLessIsOrder(keys[last], keys[last], keys[last]);
      }
    }
  }

  /** A list put in the order of its keys. */
  function Arrange<T>(xs: seq<T>, keys: seq<Key>): seq<T>
    requires |xs| == |keys|
  {
    RankedFacts(keys, |keys|);
    var order := Ranked(keys, |keys|);
    seq(|xs|, i requires 0 <= i < |xs| => assert order[i] in order; xs[order[i]])
  }

  /** `order` names every position below `n` once. */
  ghost predicate IsPermutation(order: seq<nat>, n: nat) {
    && |order| == n
    && (forall p <- order :: p < n)
    && (forall i, j | 0 <= i < j < n :: order[i] != order[j])
  }

  /** Arranging is a permutation with descending keys that keeps the order of equal keys. */
  lemma ArrangeIsStable<T>(xs: seq<T>, keys: seq<Key>) returns (order: seq<nat>)
    requires |xs| == |keys|
    ensures IsPermutation(order, |xs|)
    ensures |Arrange(xs, keys)| == |xs|
    ensures forall i | 0 <= i < |xs| :: order[i] in order && Arrange(xs, keys)[i] == xs[order[i]]
    ensures forall i, j | 0 <= i < j < |xs| :: Before(keys, order[i], order[j])
  {
    hide KeyLess;
    RankedFacts(keys, |keys|);
    order := Ranked(keys, |keys|);
    assert forall i | 0 <= i < |xs| :: order[i] in order;
    forall i, j | 0 <= i < j < |xs| ensures order[i] != order[j] {
      assert Before(keys, order[i], order[j]);
      KeyLessIsOrder(keys[order[i]], keys[order[i]], keys[order[i]]);
    }
  }
}
