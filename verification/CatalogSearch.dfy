/**
 Catalogue search: two-character keyword recall, the fallback chain of recall strategies, and the split
 of the candidates into hits and rejected products.  `lower` stands for the lower-casing of texts.
 */
module CatalogSearch {
  import opened Common
  import opened IntentTasks
  import opened Ranking
  import opened Rounding
  import Reranker

  datatype Product = Product(
    productId: string, text: string, category: string, shipsTo: seq<string>,
    currency: string, priceMajor: real)

  datatype Spec = Spec(
    query: string, category: Option<string>, shipTo: Option<string>, topK: nat,
    priceMax: Option<real>, currency: string)

  type Lower = string -> string

  datatype Scored = Scored(score: real, product: Product)

  // ---------------------------------------------------------------- tokens

  function RunLength(s: string): (n: nat)
    ensures n <= |s|
    ensures forall i | 0 <= i < n :: !IsSpace(s[i])
    ensures n < |s| ==> IsSpace(s[n])
    ensures s != [] && !IsSpace(s[0]) ==> n > 0
  {
    if s == [] || IsSpace(s[0]) then 0 else 1 + RunLength(s[1..])
  }

  /** str.split(): the maximal runs of characters that are no white space. */
  function Split(s: string): seq<string>
    decreases |s|
  {
    if s == [] then []
    else if IsSpace(s[0]) then Split(s[1..])
    else
      var n := RunLength(s);
      assert n > 0;
      [s[..n]] + Split(s[n..])
  }

  predicate IsChinese(c: char) {
    '\U{4e00}' <= c <= '\U{9fff}'
  }

  predicate HasChinese(s: string) {
    exists c <- s :: IsChinese(c)
  }

  function Gram(chunk: string, k: int): string
    requires 0 <= k < |chunk| - 1
  {
    chunk[k..k + 2]
  }

  /** The pairs of neighbouring characters. */
  function Grams(chunk: string): set<string> {
    set k | 0 <= k < |chunk| - 1 :: Gram(chunk, k)
  }

  function ChunkTokens(chunk: string): set<string> {
    {chunk} + if HasChinese(chunk) && |chunk| >= 2 then Grams(chunk) else {}
  }

  function TokensOf(chunks: seq<string>): set<string> {
    if chunks == [] then {} else TokensOf(chunks[..|chunks| - 1]) + ChunkTokens(chunks[|chunks| - 1])
  }

  function Tokens(text: string, lower: Lower): set<string> {
    TokensOf(Split(lower(text)))
  }

  method Tokenize(text: string, lower: Lower) returns (terms: set<string>)
    ensures terms == Tokens(text, lower)
  {
    terms := {};
    var chunks := Split(lower(text));
    for i := 0 to |chunks|
      invariant terms == TokensOf(chunks[..i])
    {
      var chunk := chunks[i];
      assert chunks[..i + 1][..i] == chunks[..i];
      terms := terms + {chunk};
      if HasChinese(chunk) && |chunk| >= 2 {
        terms := terms + Grams(chunk);
      }
    }
    assert chunks[..|chunks|] == chunks;
  }

  predicate OccursAt(part: string, whole: string, i: int) {
    0 <= i <= |whole| - |part| && whole[i..i + |part|] == part
  }

  /** `part` stands somewhere in `whole`, without a gap. */
  predicate OccursIn(part: string, whole: string) {
    exists i | 0 <= i <= |whole| :: OccursAt(part, whole, i)
  }

  predicate NoSpace(s: string) {
    forall c <- s :: !IsSpace(c)
  }

  lemma {:induction false} TokensOfMember(chunks: seq<string>, chunk: string)
    requires chunk in chunks
    ensures ChunkTokens(chunk) <= TokensOf(chunks)
  {
    var front, last := chunks[..|chunks| - 1], chunks[|chunks| - 1];
    if chunk != last {
      assert chunk in front;
      TokensOfMember(front, chunk);
    }
  }

  lemma NoSpaceWithin(s: string, i: nat, j: nat)
    requires i < j <= |s| && NoSpace(s[i..j])
    ensures forall k | i <= k < j :: !IsSpace(s[k])
  {
    hide IsSpace;
    assert forall k | i <= k < j :: s[i..j][k - i] == s[k] && s[k] in s[i..j];
  }

  lemma OccursWithin(s: string, i: nat, j: nat, n: nat)
    requires i < j <= n <= |s|
    ensures OccursIn(s[i..j], s[..n])
  {
    assert OccursAt(s[i..j], s[..n], i);
  }

  /** A piece without white space lies within one chunk. */
  lemma {:induction false} SplitCovers(s: string, i: nat, j: nat) returns (chunk: string)
    requires i < j <= |s| && NoSpace(s[i..j])
    ensures chunk in Split(s) && OccursIn(s[i..j], chunk)
    decreases |s|
  {
    hide IsSpace, RunLength, NoSpace, OccursIn;
    NoSpaceWithin(s, i, j);
    if IsSpace(s[0]) {
      assert s[1..][i - 1..j - 1] == s[i..j];
      chunk := SplitCovers(s[1..], i - 1, j - 1);
    } else {
      var n := RunLength(s);
      if i < n {
        chunk := s[..n];
        OccursWithin(s, i, j, n);
      } else {
        assert s[n..][i - n..j - n] == s[i..j];
        chunk := SplitCovers(s[n..], i - n, j - n);
      }
    }
  }

  /** Any piece without white space, of two characters or more and with a Chinese one, gives a token:
      its first two characters. */
  lemma PieceGivesToken(s: string, piece: string)
    requires OccursIn(piece, s) && NoSpace(piece) && |piece| >= 2 && HasChinese(piece)
    ensures piece[..2] in TokensOf(Split(s))
  {
    hide IsSpace, IsChinese, Split, TokensOf;
    var i :| 0 <= i <= |s| && OccursAt(piece, s, i);
    assert s[i..i + |piece|] == piece;
    var chunk := SplitCovers(s, i, i + |piece|);
    var k :| 0 <= k <= |chunk| && OccursAt(piece, chunk, k);
    assert chunk[k..k + |piece|] == piece;
    assert Gram(chunk, k) == piece[..2];
    assert piece[..2] in Grams(chunk);
    var c :| c in piece && IsChinese(c);
    assert forall x <- piece :: x in chunk[k..k + |piece|] && x in chunk;
    TokensOfMember(Split(s), chunk);
  }

  // ---------------------------------------------------------------- keyword recall

  predicate CategoryMatches(category: Option<string>, product: Product) {
    category.Some? && category.value != [] && OccursIn(category.value, product.category)
  }

  function KeywordScore(terms: set<string>, product: Product, category: Option<string>, lower: Lower): real {
    var matched := terms * Tokens(product.text, lower);
    if matched == {} then 0.0
    else |matched| as real + if CategoryMatches(category, product) then 3.0 else 0.0
  }

  function Candidates(spec: Spec, products: seq<Product>, lower: Lower): seq<Scored> {
    if products == [] then []
    else
      var last := products[|products| - 1];
      var score := KeywordScore(Tokens(spec.query, lower), last, spec.category, lower);
      Candidates(spec, products[..|products| - 1], lower) + if score > 0.0 then [Scored(score, last)] else []
  }

  function Keys(scored: seq<Scored>): (keys: seq<Key>)
    ensures |keys| == |scored|
  {
    seq(|scored|, i requires 0 <= i < |scored| => Score(scored[i].score))
  }

  /** list.sort(key=score, reverse=True) */
  function SortedByScore(scored: seq<Scored>): seq<Scored> {
    Arrange(scored, Keys(scored))
  }

  predicate Descending(scored: seq<Scored>) {
    forall i, j | 0 <= i < j < |scored| :: scored[i].score >= scored[j].score
  }

  /** Sorting by score: a permutation, descending, and equal scores keep their order. */
  lemma SortedByScoreIsStable(scored: seq<Scored>) returns (order: seq<nat>)
    ensures IsPermutation(order, |scored|)
    ensures |SortedByScore(scored)| == |scored| && Descending(SortedByScore(scored))
    ensures forall i | 0 <= i < |scored| :: order[i] in order && SortedByScore(scored)[i] == scored[order[i]]
    ensures forall i, j | 0 <= i < j < |scored| && SortedByScore(scored)[i].score == SortedByScore(scored)[j].score ::
              order[i] < order[j]
  {
    hide Arrange;
    order := ArrangeIsStable(scored, Keys(scored));
    forall i, j | 0 <= i < j < |scored|
      ensures SortedByScore(scored)[i].score >= SortedByScore(scored)[j].score
      ensures SortedByScore(scored)[i].score == SortedByScore(scored)[j].score ==> order[i] < order[j]
    {
      assert Before(Keys(scored), order[i], order[j]);
    }
  }

  lemma SortedHasTheSame(scored: seq<Scored>, x: Scored)
    requires x in scored
    ensures x in SortedByScore(scored)
  {
    hide SortedByScore;
    var order := SortedByScoreIsStable(scored);
    var p: nat :| p < |scored| && scored[p] == x;
    var i := PermutationReaches(order, |scored|, p);
    assert SortedByScore(scored)[i] == x;
  }

  /** A permutation names every position. */
  lemma PermutationReaches(order: seq<nat>, n: nat, p: nat) returns (i: nat)
    requires IsPermutation(order, n) && p < n
    ensures i < n && order[i] == p
  {
    var named := set k | 0 <= k < n :: order[k];
    PermutationSize(order, n);
    assert forall k | 0 <= k < n :: order[k] in order;
    SubsetSize(named, Below(n));
    assert p in Below(n);
    i :| 0 <= i < n && order[i] == p;
  }

  lemma {:induction false} PermutationSize(order: seq<nat>, n: nat)
    requires n <= |order| && forall i, j | 0 <= i < j < n :: order[i] != order[j]
    ensures |set k | 0 <= k < n :: order[k]| == n
  {
    if n > 0 {
      PermutationSize(order, n - 1);
      var rest := set k | 0 <= k < n - 1 :: order[k];
      assert (set k | 0 <= k < n :: order[k]) == rest + {order[n - 1]};
    }
  }

  lemma {:induction false} CandidateIn(spec: Spec, products: seq<Product>, lower: Lower, product: Product)
    requires product in products && KeywordScore(Tokens(spec.query, lower), product, spec.category, lower) > 0.0
    ensures Scored(KeywordScore(Tokens(spec.query, lower), product, spec.category, lower), product) in Candidates(spec, products, lower)
  {
    hide KeywordScore;
    if product != products[|products| - 1] {
      assert product in products[..|products| - 1];
      CandidateIn(spec, products[..|products| - 1], lower, product);
    }
  }

  /** One point for each token shared with the query, and three more if the category asked for occurs in the product's. */
  predicate ScoredByTerms(x: Scored, spec: Spec, lower: Lower) {
    var shared := Tokens(spec.query, lower) * Tokens(x.product.text, lower);
    var inCategory := spec.category.Some? && spec.category.value != [] && OccursIn(spec.category.value, x.product.category);
    shared != {} && x.score == (if inCategory then |shared| as real + 3.0 else |shared| as real)
  }

  lemma {:induction false} CandidatesAreScored(spec: Spec, products: seq<Product>, lower: Lower)
    ensures forall x <- Candidates(spec, products, lower) :: ScoredByTerms(x, spec, lower)
  {
    hide Tokens, OccursIn;
    if products != [] {
      CandidatesAreScored(spec, products[..|products| - 1], lower);
    }
  }

  /** The candidates are exactly the products that share a token with the query. */
  lemma {:induction false} CandidatesShareTokens(spec: Spec, products: seq<Product>, lower: Lower)
    ensures forall x <- Candidates(spec, products, lower) :: x.product in products
    ensures forall product :: (exists x <- Candidates(spec, products, lower) :: x.product == product) <==>
              product in products && Tokens(spec.query, lower) * Tokens(product.text, lower) != {}
  {
    hide Tokens, CategoryMatches;
    if products != [] {
      var front, last := products[..|products| - 1], products[|products| - 1];
      CandidatesShareTokens(spec, front, lower);
      var score := KeywordScore(Tokens(spec.query, lower), last, spec.category, lower);
      assert score > 0.0 <==> Tokens(spec.query, lower) * Tokens(last.text, lower) != {};
      var before, after := Candidates(spec, front, lower), Candidates(spec, products, lower);
      assert after == before + if score > 0.0 then [Scored(score, last)] else [];
      hide Candidates, KeywordScore;
      forall product
        ensures (exists x <- after :: x.product == product) <==>
                  product in products && Tokens(spec.query, lower) * Tokens(product.text, lower) != {}
      {
        assert product in products <==> product in front || product == last;
        assert (exists x <- after :: x.product == product) <==>
                 (exists x <- before :: x.product == product) || (score > 0.0 && last == product) by {
          if score > 0.0 {
            assert Scored(score, last) in after;
          }
          assert forall x <- before :: x in after;
          assert forall x <- after :: x in before || (score > 0.0 && x == Scored(score, last));
        }
      }
    }
  }

  /** Keyword recall never misses: a product whose text shares with the query a piece without white space,
      of two characters or more and with a Chinese one, is a candidate. */
  lemma KeywordRecallNeverMisses(spec: Spec, products: seq<Product>, lower: Lower, product: Product, piece: string)
    requires product in products
    requires OccursIn(piece, lower(spec.query)) && OccursIn(piece, lower(product.text))
    requires NoSpace(piece) && |piece| >= 2 && HasChinese(piece)
    ensures exists x <- SortedByScore(Candidates(spec, products, lower)) :: x.product == product && x.score >= 1.0
  {
    hide NoSpace, HasChinese, OccursIn, TokensOf, Split, SortedByScore;
    PieceGivesToken(lower(spec.query), piece);
    PieceGivesToken(lower(product.text), piece);
    var matched := Tokens(spec.query, lower) * Tokens(product.text, lower);
    assert piece[..2] in matched;
    var score := KeywordScore(Tokens(spec.query, lower), product, spec.category, lower);
    assert |matched| >= 1 && score >= 1.0;
    CandidateIn(spec, products, lower, product);
    SortedHasTheSame(Candidates(spec, products, lower), Scored(score, product));
  }

  method KeywordRecall(spec: Spec, products: seq<Product>, lower: Lower) returns (r: seq<Scored>)
    ensures r == SortedByScore(Candidates(spec, products, lower)) && Descending(r)
    ensures forall x <- Candidates(spec, products, lower) :: x in r
    ensures forall x <- r :: ScoredByTerms(x, spec, lower)
    ensures forall product <- products ::
              (exists x <- r :: x.product == product) <==> Tokens(spec.query, lower) * Tokens(product.text, lower) != {}
  {
    hide SortedByScore, KeywordScore, Tokens, ScoredByTerms;
    var terms := Tokenize(spec.query, lower);
    var candidates := [];
    for i := 0 to |products|
      invariant candidates == Candidates(spec, products[..i], lower)
    {
      assert products[..i + 1][..i] == products[..i];
      var score := KeywordScore(terms, products[i], spec.category, lower);
      if score > 0.0 {
        candidates := candidates + [Scored(score, products[i])];
      }
    }
    assert products[..|products|] == products;
    r := SortedByScore(candidates);
    var order := SortedByScoreIsStable(candidates);
    forall x <- candidates ensures x in r {
      SortedHasTheSame(candidates, x);
    }
    assert forall x <- r :: x in candidates;
    CandidatesShareTokens(spec, products, lower);
    CandidatesAreScored(spec, products, lower);
  }

  // ---------------------------------------------------------------- hits and rejected products

  datatype Reason = ShipToUnavailable | CurrencyUnsupported | OverPriceCap

  datatype Filtered = Filtered(product: Product, reason: Reason)

  datatype Card = Card(product: Product, score: real)

  function RejectedReason(product: Product, spec: Spec): Option<Reason> {
    if spec.shipTo.Some? && spec.shipTo.value !in product.shipsTo then Some(ShipToUnavailable)
    else if product.currency != spec.currency then Some(CurrencyUnsupported)
    else if spec.priceMax.Some? && product.priceMajor > spec.priceMax.value then Some(OverPriceCap)
    else None
  }

  function Accepted(scored: seq<Scored>, spec: Spec): seq<Scored> {
    if scored == [] then []
    else
      var last := scored[|scored| - 1];
      Accepted(scored[..|scored| - 1], spec) + if RejectedReason(last.product, spec).None? then [last] else []
  }

  function Rejected(scored: seq<Scored>, spec: Spec): seq<Filtered> {
    if scored == [] then []
    else
      var last := scored[|scored| - 1];
      var reason := RejectedReason(last.product, spec);
      Rejected(scored[..|scored| - 1], spec) + if reason.Some? then [Filtered(last.product, reason.value)] else []
  }

  /** The product ships there if a country is given, has the target currency, and is within the cap if one is given. */
  predicate Suits(product: Product, spec: Spec) {
    && (spec.shipTo.Some? ==> spec.shipTo.value in product.shipsTo)
    && product.currency == spec.currency
    && (spec.priceMax.Some? ==> product.priceMajor <= spec.priceMax.value)
  }

  /** What a reason says of its product: the first of the three conditions that it does not meet. */
  predicate Explains(reason: Reason, product: Product, spec: Spec) {
    var ships := spec.shipTo.Some? ==> spec.shipTo.value in product.shipsTo;
    match reason
    case ShipToUnavailable => !ships
    case CurrencyUnsupported => ships && product.currency != spec.currency
    case OverPriceCap =>
      ships && product.currency == spec.currency && spec.priceMax.Some? && product.priceMajor > spec.priceMax.value
  }

  lemma ReasonExplains(product: Product, spec: Spec)
    ensures RejectedReason(product, spec).None? <==> Suits(product, spec)
    ensures forall reason :: RejectedReason(product, spec) == Some(reason) <==> Explains(reason, product, spec)
  {
  }

  lemma {:induction false} AcceptedSuit(scored: seq<Scored>, spec: Spec)
    ensures forall x <- Accepted(scored, spec) :: x in scored && Suits(x.product, spec)
    ensures forall f <- Rejected(scored, spec) :: Explains(f.reason, f.product, spec) && exists x <- scored :: x.product == f.product
  {
    hide RejectedReason, Suits, Explains;
    if scored != [] {
      var front, last := scored[..|scored| - 1], scored[|scored| - 1];
      AcceptedSuit(front, spec);
      ReasonExplains(last.product, spec);
      assert last in scored && forall x <- front :: x in scored;
    }
  }

  /** The positions of the candidates that suit. */
  function Suitable(scored: seq<Scored>, spec: Spec): set<nat> {
    set i: nat | i < |scored| && Suits(scored[i].product, spec)
  }

  lemma {:induction false} AcceptedCount(scored: seq<Scored>, spec: Spec)
    ensures |Accepted(scored, spec)| == |Suitable(scored, spec)|
  {
    hide RejectedReason, Suits;
    if scored == [] {
      assert Suitable(scored, spec) == {};
    } else {
      var n := |scored| - 1;
      AcceptedCount(scored[..n], spec);
      ReasonExplains(scored[n].product, spec);
      assert Suitable(scored, spec) == Suitable(scored[..n], spec) + if Suits(scored[n].product, spec) then {n} else {};
    }
  }

  /** Every candidate goes to exactly one side, and each side keeps the order of the candidates. */
  lemma {:induction false} SplitIsExact(scored: seq<Scored>, spec: Spec, i: nat)
    requires i < |scored|
    ensures |Accepted(scored, spec)| + |Rejected(scored, spec)| == |scored|
    ensures var before := |Accepted(scored[..i], spec)|;
            var reason := RejectedReason(scored[i].product, spec);
            if reason.None?
            then before < |Accepted(scored, spec)| && Accepted(scored, spec)[before] == scored[i]
            else 0 <= i - before < |Rejected(scored, spec)| && Rejected(scored, spec)[i - before] == Filtered(scored[i].product, reason.value)
    decreases |scored|
  {
    hide RejectedReason;
    var n := |scored| - 1;
    var front := scored[..n];
    if i < n {
      SplitIsExact(front, spec, i);
      assert front[..i] == scored[..i];
    } else {
      SplitSizes(front, spec);
    }
  }

  lemma {:induction false} SplitSizes(scored: seq<Scored>, spec: Spec)
    ensures |Accepted(scored, spec)| + |Rejected(scored, spec)| == |scored|
  {
    if scored != [] {
      SplitSizes(scored[..|scored| - 1], spec);
    }
  }

  /** What is accepted from a descending list descends. */
  lemma {:induction false} AcceptedDescends(scored: seq<Scored>, spec: Spec)
    requires Descending(scored)
    ensures Descending(Accepted(scored, spec))
    ensures forall x <- Accepted(scored, spec) :: x in scored
  {
    hide RejectedReason;
    if scored != [] {
      var front, last := scored[..|scored| - 1], scored[|scored| - 1];
      AcceptedDescends(front, spec);
      var kept := Accepted(front, spec);
      forall i | 0 <= i < |kept| ensures kept[i].score >= last.score {
        assert kept[i] in kept;
        var j :| 0 <= j < |front| && front[j] == kept[i];
      }
    }
  }

  function First<T>(xs: seq<T>, n: nat): seq<T> {
    if |xs| <= n then xs else xs[..n]
  }

  function Cards(accepted: seq<Scored>): seq<Card> {
    seq(|accepted|, i requires 0 <= i < |accepted| => Card(accepted[i].product, Round4(accepted[i].score)))
  }

  // ---------------------------------------------------------------- the search

  datatype Strategy = Keyword2Gram | EmbeddingOnly | EmbeddingRerank

  datatype Output = Output(hits: seq<Card>, filteredOut: seq<Filtered>, total: nat, strategy: Strategy, rerankApplied: bool)

  /** The recalled products with the reranker's scores. */
  function Rescored(scored: seq<Scored>, scores: seq<real>): seq<Scored>
    requires |scores| == |scored|
  {
    seq(|scored|, i requires 0 <= i < |scored| => Scored(scores[i], scored[i].product))
  }

  /** The candidates of a search, and how they were found.  `vector` is None if vector recall is not set up
      or failed, `reply` if the reranker is not; the inner None is a reply without results. */
  ghost predicate Found(scored: seq<Scored>, strategy: Strategy, spec: Spec, products: seq<Product>, lower: Lower,
                        vector: Option<seq<Scored>>, reply: Option<Option<seq<Reranker.ResultItem>>>)
  {
    if vector.None? || vector.value == [] then
      strategy == Keyword2Gram && scored == SortedByScore(Candidates(spec, products, lower))
    else if reply.Some? && reply.value.Some? && Reranker.Acceptable(reply.value.value, |vector.value|) then
      strategy == EmbeddingRerank && Reranked(scored, vector.value, reply.value.value)
    else
      strategy == EmbeddingOnly && scored == vector.value
  }

  ghost predicate Reranked(scored: seq<Scored>, recalled: seq<Scored>, results: seq<Reranker.ResultItem>) {
    exists scores: seq<real> ::
      && Reranker.ScoresOf(scores, results, |recalled|) && |scores| == |recalled|
      && scored == SortedByScore(Rescored(recalled, scores))
  }

  /** The reranked list is a stable descending permutation of the recalled products by the reply's scores. */
  lemma RerankedIsPermutation(scored: seq<Scored>, recalled: seq<Scored>, results: seq<Reranker.ResultItem>)
    returns (scores: seq<real>, order: seq<nat>)
    requires Reranked(scored, recalled, results)
    ensures Reranker.ScoresOf(scores, results, |recalled|)
    ensures IsPermutation(order, |recalled|) && |scored| == |recalled| == |scores| && Descending(scored)
    ensures forall i | 0 <= i < |scored| :: order[i] in order && scored[i] == Scored(scores[order[i]], recalled[order[i]].product)
    ensures forall i, j | 0 <= i < j < |scored| && scored[i].score == scored[j].score :: order[i] < order[j]
  {
    hide SortedByScore;
    scores :| Reranker.ScoresOf(scores, results, |recalled|) && |scores| == |recalled|
              && scored == SortedByScore(Rescored(recalled, scores));
    order := SortedByScoreIsStable(Rescored(recalled, scores));
  }

  /** Two replies with the same results in another order give the same reranked list. */
  lemma ReplyOrderDoesNotMatter(a: seq<Scored>, b: seq<Scored>, recalled: seq<Scored>,
                                results: seq<Reranker.ResultItem>, shuffled: seq<Reranker.ResultItem>)
    requires Reranker.Acceptable(results, |recalled|) && multiset(results) == multiset(shuffled)
    requires Reranked(a, recalled, results) && Reranked(b, recalled, shuffled)
    ensures a == b
  {
    hide SortedByScore;
    var x :| Reranker.ScoresOf(x, results, |recalled|) && |x| == |recalled| && a == SortedByScore(Rescored(recalled, x));
    var y :| Reranker.ScoresOf(y, shuffled, |recalled|) && |y| == |recalled| && b == SortedByScore(Rescored(recalled, y));
    Reranker.ReplyOrderIsIrrelevant(x, y, results, shuffled, |recalled|);
  }

  method Recall(spec: Spec, products: seq<Product>, lower: Lower,
                vector: Option<seq<Scored>>, reply: Option<Option<seq<Reranker.ResultItem>>>)
    returns (scored: seq<Scored>, strategy: Strategy)
    ensures Found(scored, strategy, spec, products, lower, vector, reply)
    ensures strategy != EmbeddingOnly ==> Descending(scored)
  {
    hide SortedByScore, Candidates;
    scored := if vector.Some? then vector.value else [];
    if scored == [] {
      scored := KeywordRecall(spec, products, lower);
      return scored, Keyword2Gram;
    }
    strategy := EmbeddingOnly;
    if reply.Some? {
      var scores := Reranker.Rerank(|scored|, reply.value);
      if scores.Ok? && |scores.value| == |scored| {
        var rescored := Rescored(scored, scores.value);
        var order := SortedByScoreIsStable(rescored);
        scored, strategy := SortedByScore(rescored), EmbeddingRerank;
      }
    }
  }

  /** A hit is a candidate that suits. */
  ghost predicate SuitableHit(card: Card, scored: seq<Scored>, spec: Spec) {
    exists x <- scored :: card == Card(x.product, Round4(x.score)) && Suits(x.product, spec)
  }

  lemma HitsSuit(scored: seq<Scored>, spec: Spec, n: nat)
    ensures forall card <- Cards(First(Accepted(scored, spec), n)) :: SuitableHit(card, scored, spec)
  {
    hide Suits, Accepted, Round4;
    AcceptedSuit(scored, spec);
    var first := First(Accepted(scored, spec), n);
    forall card <- Cards(first) ensures SuitableHit(card, scored, spec) {
      var i :| 0 <= i < |first| && Cards(first)[i] == card;
      assert first[i] in Accepted(scored, spec);
    }
  }

  /** The hits are the first accepted candidates, as many as asked for or as there are; the rejected ones are
      shown up to three. */
  method Execute(spec: Spec, products: seq<Product>, lower: Lower,
                 vector: Option<seq<Scored>>, reply: Option<Option<seq<Reranker.ResultItem>>>)
    returns (output: Output, ghost scored: seq<Scored>)
    ensures Found(scored, output.strategy, spec, products, lower, vector, reply)
    ensures output.rerankApplied <==> output.strategy == EmbeddingRerank
    ensures output.total == |Accepted(scored, spec)|
    ensures output.hits == Cards(First(Accepted(scored, spec), spec.topK))
    ensures |output.hits| == if output.total <= spec.topK then output.total else spec.topK
    ensures output.filteredOut == First(Rejected(scored, spec), 3)
    ensures forall card <- output.hits :: SuitableHit(card, scored, spec)
    ensures output.total == |Suitable(scored, spec)|
    ensures forall f <- output.filteredOut :: Explains(f.reason, f.product, spec) && exists x <- scored :: x.product == f.product
    ensures output.strategy != EmbeddingOnly ==>
              forall i, j | 0 <= i < j < |output.hits| :: output.hits[i].score >= output.hits[j].score
  {
    hide Found, RejectedReason, Round4, Suits, Explains, Suitable, SuitableHit;
    var candidates, strategy := Recall(spec, products, lower, vector, reply);
    scored := candidates;
    var accepted: seq<Scored> := [];
    var filteredOut: seq<Filtered> := [];
    for i := 0 to |candidates|
      invariant accepted == Accepted(candidates[..i], spec) && filteredOut == Rejected(candidates[..i], spec)
    {
      assert candidates[..i + 1][..i] == candidates[..i];
      var reason := RejectedReason(candidates[i].product, spec);
      if reason.Some? {
        filteredOut := filteredOut + [Filtered(candidates[i].product, reason.value)];
        continue;
      }
      accepted := accepted + [candidates[i]];
    }
    assert candidates[..|candidates|] == candidates;
    var hits := Cards(First(accepted, spec.topK));
    output := Output(hits, First(filteredOut, 3), |accepted|, strategy, strategy == EmbeddingRerank);
    HitsSuit(scored, spec, spec.topK);
    AcceptedCount(scored, spec);
    AcceptedSuit(scored, spec);
    if strategy != EmbeddingOnly {
      AcceptedDescends(scored, spec);
      CardsDescend(First(accepted, spec.topK));
    }
  }

  lemma CardsDescend(accepted: seq<Scored>)
    requires Descending(accepted)
    ensures forall i, j | 0 <= i < j < |accepted| :: Cards(accepted)[i].score >= Cards(accepted)[j].score
  {
    forall i, j | 0 <= i < j < |accepted| ensures Cards(accepted)[i].score >= Cards(accepted)[j].score {
      Round4IsMonotone(accepted[j].score, accepted[i].score);
    }
  }
}
