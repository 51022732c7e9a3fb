/**
 The best-hit search of the semantic reply cache, and the cache object itself.  Similarity is any
 function of two vectors; similarities are real numbers.
 */
module SemanticLookup {
  import opened Common
  import opened IntentTasks
  import opened Rounding
  import opened SemanticBuckets

  type Vector = seq<real>

  type Similarity = (Vector, Vector) -> real

  /** An entry that can be a hit: a usable vector, a reply that is not empty, and a query. */
  predicate Usable(e: Entry) {
    e.vector != [] && e.reply.Some? && e.reply.value != [] && e.query.Some?
  }

  predicate Reaches(e: Entry, similarity: Similarity, vector: Vector, threshold: real) {
    Usable(e) && similarity(vector, e.vector) >= threshold
  }

  predicate HitOf(hit: Hit, e: Entry, similarity: Similarity, vector: Vector, threshold: real) {
    && Reaches(e, similarity, vector, threshold)
    && hit == Hit(e.reply.value, Round4(similarity(vector, e.vector)), e.query.value)
  }

  /** No entry that reaches the threshold is more than 0.00005 closer to the query than entry `best`. */
  predicate NearlyBest(entries: seq<Entry>, best: Entry, similarity: Similarity, vector: Vector, threshold: real) {
    forall e <- entries :: Reaches(e, similarity, vector, threshold) ==>
      similarity(vector, e.vector) <= similarity(vector, best.vector) + 0.00005
  }

  predicate RoundsBelow(entries: seq<Entry>, rounded: real, similarity: Similarity, vector: Vector, threshold: real) {
    forall e <- entries :: Reaches(e, similarity, vector, threshold) ==>
      similarity(vector, e.vector) <= rounded + 0.00005
  }

  /** The index the search ends with: each entry is compared with the rounded similarity of the best so far. */
  function Search(entries: seq<Entry>, similarity: Similarity, vector: Vector, threshold: real): (at: Option<nat>)
    ensures at.Some? ==> at.value < |entries|
    decreases |entries|
  {
    if entries == [] then None
    else
      var last := |entries| - 1;
      var best := Search(entries[..last], similarity, vector, threshold);
      if Reaches(entries[last], similarity, vector, threshold)
         && (best.None? || similarity(vector, entries[last].vector) > Round4(similarity(vector, entries[best.value].vector)))
      then Some(last) else best
  }

  /** The error does not add up, whatever the number of entries. */
  lemma {:induction false} SearchIsNearlyBest(entries: seq<Entry>, similarity: Similarity, vector: Vector, threshold: real)
    ensures var at := Search(entries, similarity, vector, threshold);
            && (at.None? <==> forall e <- entries :: !Reaches(e, similarity, vector, threshold))
            && (at.Some? ==>
                  && Reaches(entries[at.value], similarity, vector, threshold)
                  && NearlyBest(entries, entries[at.value], similarity, vector, threshold)
                  && RoundsBelow(entries, Round4(similarity(vector, entries[at.value].vector)), similarity, vector, threshold))
    decreases |entries|
  {
    hide Round4, Usable;
    if entries != [] {
      var front, e := entries[..|entries| - 1], entries[|entries| - 1];
      SearchIsNearlyBest(front, similarity, vector, threshold);
      assert entries == front + [e];
      var best := Search(front, similarity, vector, threshold);
      var s := similarity(vector, e.vector);
      Round4IsClose(s);
      if best.Some? {
        var r := similarity(vector, front[best.value].vector);
        assert entries[best.value] == front[best.value];
        Round4IsClose(r);
        Round4IsIdempotent(r);
        if Round4(r) <= s {
          Round4IsMonotone(Round4(r), s);
        }
      }
    }
  }

  /** The bound cannot be improved: 0.95995 rounds to 0.96, and 0.96 is then not above it. */
  lemma TheBoundIsReached(reply: string)
    requires reply != []
    ensures var similarity := (l: Vector, r: Vector) => if r == [] then 0.0 else r[0];
            var entries := [Entry(Some("a"), Some(reply), [0.95995]), Entry(Some("b"), Some(reply), [0.96])];
            && Search(entries, similarity, [1.0], 0.95) == Some(0)
            && similarity([1.0], entries[1].vector) == similarity([1.0], entries[0].vector) + 0.00005
  {
    var similarity := (l: Vector, r: Vector) => if r == [] then 0.0 else r[0];
    var a, b := Entry(Some("a"), Some(reply), [0.95995]), Entry(Some("b"), Some(reply), [0.96]);
    assert [a, b][..1] == [a] && [a][..0] == [];
    assert Search([], similarity, [1.0], 0.95) == None;
    assert Search([a], similarity, [1.0], 0.95) == Some(0);
    assert (9599.5).Floor == 9599;
    assert Round4(0.95995) == 0.96;
  }

  method BestHit(entries: seq<Entry>, vector: Vector, similarity: Similarity, threshold: real) returns (hit: Option<Hit>)
    ensures var at := Search(entries, similarity, vector, threshold);
            if at.None? then hit == None else hit.Some? && HitOf(hit.value, entries[at.value], similarity, vector, threshold)
    ensures hit.None? <==> forall e <- entries :: !Reaches(e, similarity, vector, threshold)
    ensures hit.Some? ==> exists e <- entries ::
              HitOf(hit.value, e, similarity, vector, threshold) && NearlyBest(entries, e, similarity, vector, threshold)
  {
    hit := None;
    for i := 0 to |entries|
      invariant var at := Search(entries[..i], similarity, vector, threshold);
                if at.None? then hit == None else hit.Some? && HitOf(hit.value, entries[at.value], similarity, vector, threshold)
    {
      var e := entries[i];
      assert entries[..i + 1][..i] == entries[..i];
      if e.vector == [] || e.reply.None? || e.reply.value == [] || e.query.None? {
        continue;
      }
      var s := similarity(vector, e.vector);
      if s < threshold {
        continue;
      }
      if hit.None? || s > hit.value.similarity {
        hit := Some(Hit(e.reply.value, Round4(s), e.query.value));
      }
    }
    assert entries[..|entries|] == entries;
    SearchIsNearlyBest(entries, similarity, vector, threshold);
  }

  // ---------------------------------------------------------------- the cache

  /** A stored value: the JSON found under a bucket's key. */
  datatype StoredValue = NotAList | List(items: seq<Option<Entry>>)

  /** _load_entries: what is not a dictionary is skipped. */
  function Dictionaries(items: seq<Option<Entry>>): seq<Entry> {
    if items == [] then []
    else (if items[0].Some? then [items[0].value] else []) + Dictionaries(items[1..])
  }

  function AllDictionaries(entries: seq<Entry>): seq<Option<Entry>> {
    seq(|entries|, i requires 0 <= i < |entries| => Some(entries[i]))
  }

  lemma {:induction false} StoredEntriesAreRead(entries: seq<Entry>)
    ensures Dictionaries(AllDictionaries(entries)) == entries
  {
    if entries != [] {
      assert AllDictionaries(entries)[1..] == AllDictionaries(entries[1..]);
      StoredEntriesAreRead(entries[1..]);
    }
  }

  lemma BucketAfter(events: seq<BucketEvent>, event: BucketEvent)
    ensures Bucket(events + [event]) ==
            match event
            case Expired => []
            case Remembered(e, loaded, stored) => if stored then Rewritten(if loaded then Bucket(events) else [], e) else Bucket(events)
  {
    assert (events + [event])[..|events|] == events;
  }

  lemma WrittenIsThere(loaded: seq<Entry>, e: Entry)
    ensures e in Rewritten(loaded, e)
  {
    var all := Without(loaded, e.query) + [e];
    assert LastOf(all, BUCKET_LIMIT)[|LastOf(all, BUCKET_LIMIT)| - 1] == e;
  }

  class SemanticCache {
    const enabled: bool
    const threshold: real
    const unsafe: string -> bool
    const similarity: Similarity
    /** The bucket behind each key, and what has happened to it since this cache began to fill it. */
    var buckets: map<string, StoredValue>
    ghost var events: map<string, seq<BucketEvent>>

    constructor (enabled: bool, threshold: real, unsafe: string -> bool, similarity: Similarity)
      ensures Valid() && buckets == map[] && events == map[]
      ensures this.enabled == enabled && this.threshold == threshold && this.unsafe == unsafe && this.similarity == similarity
    {
      this.enabled, this.threshold, this.unsafe, this.similarity := enabled, threshold, unsafe, similarity;
      buckets := map[];
      events := map[];
    }

    ghost function EventsOf(key: string): seq<BucketEvent>
      reads this
    {
      if key in events then events[key] else []
    }

    function Entries(key: string): seq<Entry>
      reads this
    {
      if key in buckets && buckets[key].List? then Dictionaries(buckets[key].items) else []
    }

    /** Every bucket is what the events of its key make of it. */
    ghost predicate Valid()
      reads this
    {
      forall key :: Entries(key) == Bucket(EventsOf(key))
    }

    /** A change of one bucket and its events leaves the others as they were. */
    twostate lemma OthersStay(key: string)
      requires old(Valid())
      requires forall other | other != key :: Entries(other) == old(Entries(other)) && EventsOf(other) == old(EventsOf(other))
      requires Entries(key) == Bucket(EventsOf(key))
      ensures Valid()
    {
      hide Entries, EventsOf, Bucket;
    }

    predicate Cacheable(query: string) {
      Normalize(query) != [] && !unsafe(Normalize(query))
    }

    predicate Refused(query: string, reply: string, hasHistory: bool) {
      !enabled || hasHistory || !Cacheable(query) || reply == [] || "[error]" <= reply
    }

    /** The parameters that end in `ok` and the optional vector say how the calls to Redis and to the
        embedder ended. */
    method Remember(key: string, query: string, reply: string, hasHistory: bool,
                    embedded: Option<Vector>, loadOk: bool, storeOk: bool)
      requires Valid()
      modifies this
      ensures Valid()
      ensures || !enabled || hasHistory || Normalize(query) == [] || unsafe(Normalize(query))
              || reply == [] || "[error]" <= reply || embedded.None?
              ==> buckets == old(buckets) && events == old(events)
      ensures && enabled && !hasHistory && Normalize(query) != [] && !unsafe(Normalize(query))
              && reply != [] && !("[error]" <= reply) && embedded.Some?
              ==> var e := Entry(Some(Normalize(query)), Some(reply), embedded.value);
                  && events == old(events)[key := old(EventsOf(key)) + [Remembered(e, loadOk, storeOk)]]
                  && (storeOk ==> e in Entries(key))
      ensures forall other | other != key :: Entries(other) == old(Entries(other))
      ensures Entries(key) == LastOf(LastWrites(Writes(EventsOf(key))), BUCKET_LIMIT)
    {
      hide Normalize, Rewritten, Writes, LastWrites, LastOf, Bucket, Dictionaries, AllDictionaries;
      BucketIsRecentHistory(EventsOf(key));
      if Refused(query, reply, hasHistory) || embedded.None? {
        return;
      }
      var entry := Entry(Some(Normalize(query)), Some(reply), embedded.value);
      var loaded := if loadOk then Entries(key) else [];
      ghost var happened := EventsOf(key) + [Remembered(entry, loadOk, storeOk)];
      BucketAfter(EventsOf(key), Remembered(entry, loadOk, storeOk));
      var kept := Rewritten(loaded, entry);
      WrittenIsThere(loaded, entry);
      StoredEntriesAreRead(kept);
      BucketIsRecentHistory(happened);
      if storeOk {
        buckets := buckets[key := List(AllDictionaries(kept))];
      }
      events := events[key := happened];
      OthersStay(key);
    }

    /** Redis drops the bucket when its time has come. */
    method Expire(key: string)
      requires Valid()
      modifies this
      ensures Valid() && Entries(key) == [] && forall other | other != key :: Entries(other) == old(Entries(other))
    {
      hide Bucket, Dictionaries;
      BucketAfter(EventsOf(key), Expired);
      buckets := buckets - {key};
      events := events[key := EventsOf(key) + [Expired]];
      OthersStay(key);
    }

    /** A hit is nearly the best entry of the bucket; a miss has one of four reasons. */
    method Lookup(key: string, query: string, hasHistory: bool, embedded: Option<Vector>, loadOk: bool) returns (hit: Option<Hit>)
      ensures !enabled || hasHistory || Normalize(query) == [] || unsafe(Normalize(query)) || !loadOk || embedded.None? ==> hit == None
      ensures enabled && !hasHistory && Normalize(query) != [] && !unsafe(Normalize(query)) && loadOk && embedded.Some? ==>
                && (hit.None? <==> forall e <- Entries(key) :: Usable(e) ==> similarity(embedded.value, e.vector) < threshold)
                && (hit.Some? ==> exists e <- Entries(key) ::
                      && similarity(embedded.value, e.vector) >= threshold && e.reply == Some(hit.value.reply)
                      && HitOf(hit.value, e, similarity, embedded.value, threshold)
                      && NearlyBest(Entries(key), e, similarity, embedded.value, threshold))
    {
      if !enabled || hasHistory || !Cacheable(query) {
        return None;
      }
      var entries := if loadOk then Entries(key) else [];
      if entries == [] || embedded.None? {
        return None;
      }
      hit := BestHit(entries, embedded.value, similarity, threshold);
    }
  }
}
