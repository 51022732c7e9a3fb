/**
 The embedding client that reads vectors from a cache before it asks the client it wraps.
 A cache key is the text itself: the digest of model and text is taken to be injective.
 */
module EmbeddingCache {
  import opened Common

  type Vector = seq<real>

  /** A cached JSON value: anything else than a list of numbers, or a list of numbers. */
  datatype Cached = NotNumbers | Numbers(vector: Vector)

  /** _parse_cached_vector: an empty list is no vector. */
  function Parse(value: Cached): Option<Vector> {
    if value.Numbers? && value.vector != [] then Some(value.vector) else None
  }

  type Cache = map<string, Cached>

  type Embedder = string -> Vector

  /** Whatever the cache gives out for a text is that text's embedding. */
  predicate Consistent(cache: Cache, embedder: Embedder) {
    forall text <- cache :: Parse(cache[text]).Some? ==> Parse(cache[text]).value == embedder(text)
  }

  function EmbedAll(texts: seq<string>, embedder: Embedder): seq<Vector> {
    seq(|texts|, i requires 0 <= i < |texts| => embedder(texts[i]))
  }

  datatype EmbeddingError = InnerRaised | WrongCount | Missing

  /** One call of the wrapped client; its answer may be an exception or have a wrong length. */
  datatype InnerCall = InnerCall(texts: seq<string>, answer: Result<seq<Vector>, EmbeddingError>)

  /** One read of the cache, and the vector it gave. */
  datatype ReadCall = ReadCall(text: string, vector: Option<Vector>)

  /** How many reads gave a vector. */
  function Found(lookups: seq<ReadCall>): nat {
    if lookups == [] then 0 else Found(lookups[..|lookups| - 1]) + if lookups[|lookups| - 1].vector.Some? then 1 else 0
  }

  function TextsRead(lookups: seq<ReadCall>): seq<string> {
    seq(|lookups|, i requires 0 <= i < |lookups| => lookups[i].text)
  }

  lemma OneMoreRead(lookups: seq<ReadCall>, read: ReadCall)
    ensures Found(lookups + [read]) == Found(lookups) + if read.vector.Some? then 1 else 0
    ensures TextsRead(lookups + [read]) == TextsRead(lookups) + [read.text]
  {
    assert (lookups + [read])[..|lookups|] == lookups;
  }

  predicate Answered(call: InnerCall) {
    call.answer.Ok? && |call.answer.value| == |call.texts|
  }

  /** `positions` says where the members of `part` stand in `whole`, in ascending order. */
  predicate PicksOut(part: seq<string>, positions: seq<nat>, whole: seq<string>) {
    && |part| == |positions|
    && (forall k | 0 <= k < |part| :: positions[k] < |whole| && part[k] == whole[positions[k]])
    && (forall j, k | 0 <= j < k < |positions| :: positions[j] < positions[k])
  }

  class CachedEmbeddingClient {
    const embedder: Embedder
    var cache: Cache
    var hits: nat
    var misses: nat
    /** History: the calls of the wrapped client, the texts whose vectors were sent to the cache, and the reads. */
    ghost var asked: seq<InnerCall>
    ghost var sent: seq<string>
    ghost var lookups: seq<ReadCall>

    constructor (embedder: Embedder)
      ensures Valid() && this.embedder == embedder && hits == misses == 0 && asked == [] && sent == [] && lookups == []
    {
      this.embedder := embedder;
      cache, hits, misses, asked, sent, lookups := map[], 0, 0, [], [], [];
    }

    ghost predicate Valid()
      reads this
    {
      Consistent(cache, embedder)
    }
  
    /** Time passes and other clients write: entries come and go, and stay consistent. */
    method Interfere()
      requires Valid()
      modifies this`cache
      ensures Valid()
    {
      var next: Cache := *;
      if Consistent(next, embedder) {
        cache := next;
      }
    }

    /** A read that fails is a miss. */
    method SafeGet(text: string) returns (vector: Option<Vector>, failed: bool)
      requires Valid()
      modifies this`cache, this`lookups
      ensures Valid() && lookups == old(lookups) + [ReadCall(text, vector)]
      ensures vector == if failed || text !in cache then None else Parse(cache[text])
      ensures vector.Some? <==> !failed && text in cache && cache[text].Numbers? && cache[text].vector != []
      ensures vector.Some? ==> vector.value == cache[text].vector == embedder(text)
    {
      Interfere();
      failed := *;
      vector := if failed || text !in cache then None else Parse(cache[text]);
      lookups := lookups + [ReadCall(text, vector)];
    }

    /** A write that fails is skipped. */
    method SafeSet(text: string, vector: Vector)
      requires Valid() && vector == embedder(text)
      modifies this`cache, this`sent
      ensures Valid() && sent == old(sent) + [text]
    {
      Interfere();
      sent := sent + [text];
      var fails: bool := *;
      if !fails {
        cache := cache[text := Numbers(vector)];
      }
    }

    /** The wrapped client: the embeddings of the texts, an exception, or an answer of another length. */
    method AskInner(texts: seq<string>) returns (answer: Result<seq<Vector>, EmbeddingError>)
      requires Valid()
      modifies this`cache, this`asked
      ensures Valid()
      ensures asked == old(asked) + [InnerCall(texts, answer)]
      ensures answer.Ok? && |answer.value| == |texts| ==> answer.value == EmbedAll(texts, embedder)
    {
      Interfere();
      var raises: bool := *;
      var other: seq<Vector> := *;
      if raises {
        answer := Err(InnerRaised);
      } else if |other| != |texts| {
        answer := Ok(other);
      } else {
        answer := Ok(EmbedAll(texts, embedder));
      }
      asked := asked + [InnerCall(texts, answer)];
    }

    /** Reads the cache for every text; what is not found is noted with its position. */
    method ReadAll(texts: seq<string>, results: array<Option<Vector>>) returns (pending: seq<(nat, string)>)
      requires Valid() && results.Length == |texts| && forall k | 0 <= k < |texts| :: results[k].None?
      modifies this`cache, this`hits, this`misses, this`lookups, results
      ensures Valid() && PendingOk(pending, texts, |texts|)
      ensures Right(results[..], texts, embedder) && Holes(results[..], pending, |texts|)
      ensures misses == old(misses) + |pending| && hits + misses == old(hits) + old(misses) + |texts| && hits >= old(hits)
      ensures ReadOnce(old(lookups), lookups, texts) && hits == old(hits) + Found(lookups[|old(lookups)|..])
    {
      hide Consistent, Found, TextsRead;
      pending := [];
      ghost var done: seq<ReadCall> := [];
      NothingRead();
      for i := 0 to |texts|
        invariant Valid()
        invariant misses == old(misses) + |pending| && hits + misses == old(hits) + old(misses) + i && hits >= old(hits)
        invariant PendingOk(pending, texts, i) && Right(results[..], texts, embedder) && Holes(results[..], pending, i)
        invariant lookups == old(lookups) + done && TextsRead(done) == texts[..i] && hits == old(hits) + Found(done)
      {
        var cached, failed := SafeGet(texts[i]);
        OneMoreRead(done, ReadCall(texts[i], cached));
        done := done + [ReadCall(texts[i], cached)];
        if cached.Some? {
          hits := hits + 1;
          results[i] := cached;
        } else {
          misses := misses + 1;
          IsPendingAppend(pending, i, texts[i]);
          pending := pending + [(i, texts[i])];
        }
      }
      assert lookups[|old(lookups)|..] == done;
    }

    /** Puts every fresh vector in its place and into the cache. */
    method Fill(texts: seq<string>, pending: seq<(nat, string)>, vectors: seq<Vector>, results: array<Option<Vector>>)
      requires Valid() && results.Length == |texts| == |results[..]| && PendingOk(pending, texts, |texts|)
      requires |vectors| == |pending| && forall k | 0 <= k < |pending| :: vectors[k] == embedder(pending[k].1)
      requires Right(results[..], texts, embedder) && Holes(results[..], pending, |texts|)
      modifies this`cache, this`sent, results
      ensures Valid() && Right(results[..], texts, embedder) && Holes(results[..], [], |texts|)
      ensures sent == old(sent) + Texts(pending)
    {
      hide Consistent;
      assert pending[0..] == pending;
      for k := 0 to |pending|
        invariant Valid() && Right(results[..], texts, embedder) && Holes(results[..], pending[k..], |texts|)
        invariant sent == old(sent) + Texts(pending[..k])
      {
        assert Texts(pending[..k + 1]) == Texts(pending[..k]) + [pending[k].1];
        var (index, text) := pending[k];
        IsPendingFirst(pending, k, |texts|);
        results[index] := Some(vectors[k]);
        SafeSet(text, vectors[k]);
      }
      assert pending[..|pending|] == pending;
    }

    /** The result is the embedding of every text in order, whatever was cached and whichever reads and
        writes failed; every text is read once and counted as what the read gave, and the wrapped client is asked, at most once, for
        exactly the texts counted as misses, which are then sent to the cache. */
    method EmbedBatch(texts: seq<string>) returns (r: Result<seq<Vector>, EmbeddingError>)
      requires Valid()
      modifies this
      ensures Valid()
      ensures hits + misses == old(hits) + old(misses) + |texts| && hits >= old(hits) && misses >= old(misses)
      ensures ReadOnce(old(lookups), lookups, texts) && hits == old(hits) + Found(lookups[|old(lookups)|..])
      ensures r.Ok? ==> r.value == EmbedAll(texts, embedder)
      ensures misses == old(misses) ==> asked == old(asked) && sent == old(sent) && r.Ok?
      ensures misses > old(misses) ==>
                && |asked| == |old(asked)| + 1 && old(asked) < asked
                && var call := asked[|old(asked)|];
                  && |call.texts| == misses - old(misses)
                  && (exists positions :: PicksOut(call.texts, positions, texts))
                  && (r.Ok? <==> Answered(call))
                  && sent == old(sent) + if r.Ok? then call.texts else []
    {
      hide Consistent, Found, TextsRead;
      if texts == [] {
        NothingRead();
        assert lookups[|lookups|..] == [];
        return Ok([]);
      }
      var results := new Option<Vector>[|texts|](_ => None);
      var pending := ReadAll(texts, results);
      if pending != [] {
        var wanted := Texts(pending);
        WantedIsPickedOut(wanted, pending, texts);
        var answer := AskInner(wanted);
        if answer.Err? {
          return Err(answer.error);
        }
        if |answer.value| != |pending| {
          return Err(WrongCount);
        }
        Fill(texts, pending, answer.value, results);
      }
      r := Collect(results[..], texts, embedder);
    }
  }

  /** Every text was read once, in order. */
  predicate ReadOnce(before: seq<ReadCall>, after: seq<ReadCall>, texts: seq<string>) {
    before <= after && TextsRead(after[|before|..]) == texts
  }

  lemma NothingRead()
    ensures Found([]) == 0 && TextsRead([]) == []
  {
  }

  /** Every result that is there is the embedding of its text. */
  predicate Right(results: seq<Option<Vector>>, texts: seq<string>, embedder: Embedder) {
    |results| == |texts| && forall i | 0 <= i < |texts| :: results[i].Some? ==> results[i].value == embedder(texts[i])
  }

  /** Among the first `n` results exactly the pending ones are missing; all later ones are. */
  predicate Holes(results: seq<Option<Vector>>, pending: seq<(nat, string)>, n: nat) {
    forall i | 0 <= i < |results| :: results[i].None? <==> i >= n || IsPending(pending, i)
  }

  /** The last check of a batch, and its result. */
  method Collect(results: seq<Option<Vector>>, texts: seq<string>, embedder: Embedder)
    returns (r: Result<seq<Vector>, EmbeddingError>)
    requires Right(results, texts, embedder)
    ensures r.Ok? <==> forall i | 0 <= i < |results| :: results[i].Some?
    ensures r.Ok? ==> r.value == EmbedAll(texts, embedder)
  {
    var vectors := [];
    for i := 0 to |texts|
      invariant vectors == EmbedAll(texts[..i], embedder) && forall k | 0 <= k < i :: results[k].Some?
    {
      if results[i].None? {
        return Err(Missing);
      }
      vectors := vectors + [results[i].value];
    }
    assert texts[..|texts|] == texts;
    return Ok(vectors);
  }

  lemma WantedIsPickedOut(wanted: seq<string>, pending: seq<(nat, string)>, texts: seq<string>)
    requires PendingOk(pending, texts, |texts|)
    requires |wanted| == |pending| && forall k | 0 <= k < |pending| :: wanted[k] == pending[k].1
    ensures exists positions :: PicksOut(wanted, positions, texts)
  {
    var positions := seq(|pending|, k requires 0 <= k < |pending| => pending[k].0);
    assert PicksOut(wanted, positions, texts);
  }

  lemma IsPendingFirst(pending: seq<(nat, string)>, k: nat, n: nat)
    requires k < |pending| && forall i, j | 0 <= i < j < |pending| :: pending[i].0 < pending[j].0
    ensures forall i | 0 <= i < n :: IsPending(pending[k..], i) <==> i == pending[k].0 || IsPending(pending[k + 1..], i)
    ensures !IsPending(pending[k + 1..], pending[k].0)
  {
    var now, later := pending[k..], pending[k + 1..];
    forall i ensures IsPending(now, i) <==> i == pending[k].0 || IsPending(later, i) {
      if IsPending(now, i) {
        var j :| 0 <= j < |now| && now[j].0 == i;
        assert j > 0 ==> later[j - 1].0 == i;
      }
      if IsPending(later, i) {
        var j :| 0 <= j < |later| && later[j].0 == i;
        assert now[j + 1].0 == i;
      }
      assert now[0].0 == pending[k].0;
    }
    forall j | 0 <= j < |later| ensures later[j].0 != pending[k].0 {
      assert later[j] == pending[k + 1 + j];
    }
  }

  function Texts(pending: seq<(nat, string)>): seq<string> {
    seq(|pending|, k requires 0 <= k < |pending| => pending[k].1)
  }

  predicate IsPending(pending: seq<(nat, string)>, i: int) {
    exists k :: 0 <= k < |pending| && pending[k].0 == i
  }

  /** The pairs noted as misses so far: ascending positions with their texts. */
  predicate PendingOk(pending: seq<(nat, string)>, texts: seq<string>, i: nat) {
    && (forall k | 0 <= k < |pending| :: pending[k].0 < i && pending[k].0 < |texts| && pending[k].1 == texts[pending[k].0])
    && (forall j, k | 0 <= j < k < |pending| :: pending[j].0 < pending[k].0)
  }

  lemma IsPendingAppend(pending: seq<(nat, string)>, i: nat, text: string)
    ensures forall k :: IsPending(pending + [(i, text)], k) <==> IsPending(pending, k) || k == i
  {
    var longer := pending + [(i, text)];
    forall k ensures IsPending(longer, k) <==> IsPending(pending, k) || k == i {
      if IsPending(pending, k) {
        var j :| 0 <= j < |pending| && pending[j].0 == k;
        assert longer[j].0 == k;
      }
      if k == i {
        assert longer[|pending|].0 == k;
      }
    }
  }
}
