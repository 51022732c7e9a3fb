/**
 The semantic reply cache: one bucket of recent replies per buyer and scope, rewritten as a whole by
 every write, and searched for the reply whose query is most similar.
 */
module SemanticBuckets {
  import opened Common
  import opened IntentTasks

  const BUCKET_LIMIT := 30

  /** A stored entry as it is read back: a field that is missing or of another type is None, and an
      unusable vector is empty. */
  datatype Entry = Entry(query: Option<string>, reply: Option<string>, vector: seq<real>)

  datatype Hit = Hit(reply: string, similarity: real, matchedQuery: string)

  // ---------------------------------------------------------------- the bounded bucket

  function Without(entries: seq<Entry>, query: Option<string>): seq<Entry> {
    if entries == [] then []
    else (if entries[0].query == query then [] else [entries[0]]) + Without(entries[1..], query)
  }

  /** What a write stores over the entries it loaded. */
  function Rewritten(loaded: seq<Entry>, e: Entry): seq<Entry> {
    LastOf(Without(loaded, e.query) + [e], BUCKET_LIMIT)
  }

  predicate DistinctQueries(entries: seq<Entry>) {
    forall i, j | 0 <= i < j < |entries| :: entries[i].query != entries[j].query
  }

  predicate Tidy(entries: seq<Entry>) {
    |entries| <= BUCKET_LIMIT && DistinctQueries(entries)
  }

  predicate Asks(entries: seq<Entry>, query: Option<string>) {
    exists e <- entries :: e.query == query
  }

  /** The last write of every query, in the order of those writes. */
  function LastWrites(history: seq<Entry>): seq<Entry> {
    if history == [] then []
    else (if Asks(history[1..], history[0].query) then [] else [history[0]]) + LastWrites(history[1..])
  }

  lemma {:induction false} WithoutMembers(entries: seq<Entry>, query: Option<string>)
    ensures |Without(entries, query)| <= |entries|
    ensures forall e :: e in Without(entries, query) <==> e in entries && e.query != query
  {
    if entries != [] {
      WithoutMembers(entries[1..], query);
      assert entries == [entries[0]] + entries[1..];
    }
  }

  lemma {:induction false} WithoutDistinct(entries: seq<Entry>, query: Option<string>)
    requires DistinctQueries(entries)
    ensures DistinctQueries(Without(entries, query))
  {
    if entries != [] {
      WithoutDistinct(entries[1..], query);
      var rest := Without(entries[1..], query);
      WithoutMembers(entries[1..], query);
      if entries[0].query != query {
        forall i | 0 <= i < |rest| ensures rest[i].query != entries[0].query {
          assert rest[i] in rest;
        }
      }
    }
  }

  lemma {:induction false} WithoutNobody(entries: seq<Entry>, query: Option<string>)
    requires forall e <- entries :: e.query != query
    ensures Without(entries, query) == entries
  {
    if entries != [] {
      WithoutNobody(entries[1..], query);
    }
  }

  lemma {:induction false} WithoutConcat(a: seq<Entry>, b: seq<Entry>, query: Option<string>)
    ensures Without(a + b, query) == Without(a, query) + Without(b, query)
  {
    if a == [] {
      assert a + b == b;
    } else {
      assert (a + b)[1..] == a[1..] + b;
      WithoutConcat(a[1..], b, query);
    }
  }

  lemma LastOfConcat<T>(a: seq<T>, b: seq<T>, limit: nat)
    requires |b| >= limit
    ensures LastOf(a + b, limit) == LastOf(b, limit)
  {
  }

  /** Dropping the oldest entries before a write changes nothing: distinct queries lose at most one entry. */
  lemma TruncatingEarlyIsHarmless(entries: seq<Entry>, e: Entry)
    requires DistinctQueries(entries)
    ensures Rewritten(LastOf(entries, BUCKET_LIMIT), e) == LastOf(Without(entries, e.query) + [e], BUCKET_LIMIT)
  {
    if |entries| > BUCKET_LIMIT {
      hide Without, LastOf;
      var earlier, recent := entries[..|entries| - BUCKET_LIMIT], entries[|entries| - BUCKET_LIMIT..];
      assert LastOf(entries, BUCKET_LIMIT) == recent by { LastOfIs(entries, BUCKET_LIMIT); }
      assert entries == earlier + recent;
      WithoutConcat(earlier, recent, e.query);
      LosesAtMostOne(recent, e.query);
      var kept := Without(recent, e.query) + [e];
      assert Without(entries, e.query) + [e] == Without(earlier, e.query) + kept;
      LastOfConcat(Without(earlier, e.query), kept, BUCKET_LIMIT);
    }
  }

  lemma LastOfIs<T>(xs: seq<T>, limit: nat)
    requires limit < |xs|
    ensures LastOf(xs, limit) == xs[|xs| - limit..]
  {
  }

  lemma LosesAtMostOne(entries: seq<Entry>, query: Option<string>)
    requires DistinctQueries(entries)
    ensures |Without(entries, query)| >= |entries| - 1
  {
    if !Asks(entries, query) {
      WithoutNobody(entries, query);
    } else {
      var k :| 0 <= k < |entries| && entries[k].query == query;
      RemovesOne(entries, query, k);
    }
  }

  lemma {:induction false} RemovesOne(entries: seq<Entry>, query: Option<string>, k: nat)
    requires DistinctQueries(entries) && k < |entries| && entries[k].query == query
    ensures |Without(entries, query)| == |entries| - 1
  {
    if k == 0 {
      forall e <- entries[1..] ensures e.query != query {
        var j :| 0 < j < |entries| && entries[j] == e;
      }
      WithoutNobody(entries[1..], query);
    } else {
      RemovesOne(entries[1..], query, k - 1);
    }
  }

  lemma {:induction false} LastWritesFacts(history: seq<Entry>)
    ensures DistinctQueries(LastWrites(history))
    ensures forall e <- LastWrites(history) :: e in history
    ensures forall query :: Asks(LastWrites(history), query) <==> Asks(history, query)
  {
    if history != [] {
      LastWritesFacts(history[1..]);
      var rest := LastWrites(history[1..]);
      var first := history[0];
      assert history == [first] + history[1..];
      forall query ensures Asks(LastWrites(history), query) <==> Asks(history, query) {
        assert Asks(history, query) <==> first.query == query || Asks(history[1..], query);
        assert Asks(rest, query) <==> Asks(history[1..], query);
      }
      if !Asks(history[1..], first.query) {
        forall i | 0 <= i < |rest| ensures rest[i].query != first.query {
          assert Asks(rest, rest[i].query);
        }
      }
    }
  }

  /** One more write: it replaces the last write of its query and becomes the latest. */
  lemma {:induction false} LastWritesAppend(history: seq<Entry>, e: Entry)
    ensures LastWrites(history + [e]) == Without(LastWrites(history), e.query) + [e]
  {
    hide Asks, LastWrites, Without;
    if history == [] {
      assert history + [e] == [e];
      LastWritesOne(e);
    } else {
      var first, rest := history[0], history[1..];
      assert (history + [e])[1..] == rest + [e];
      LastWritesAppend(rest, e);
      AsksAppend(rest, e, first.query);
      var kept := if Asks(rest, first.query) then [] else [first];
      var keptAfter := if Asks(rest + [e], first.query) then [] else [first];
      LastWritesFirst(history);
      LastWritesFirst(history + [e]);
      WithoutConcat(kept, LastWrites(rest), e.query);
      WithoutOne(first, e.query);
      assert keptAfter == Without(kept, e.query);
      assert keptAfter + (Without(LastWrites(rest), e.query) + [e]) == keptAfter + Without(LastWrites(rest), e.query) + [e];
    }
  }

  lemma LastWritesFirst(history: seq<Entry>)
    requires history != []
    ensures LastWrites(history) ==
            (if Asks(history[1..], history[0].query) then [] else [history[0]]) + LastWrites(history[1..])
  {
  }

  lemma LastWritesOne(e: Entry)
    ensures LastWrites([]) == [] && Without([], e.query) == [] && LastWrites([e]) == [e]
  {
    assert !Asks([], e.query);
  }

  lemma WithoutOne(e: Entry, query: Option<string>)
    ensures Without([e], query) == if e.query == query then [] else [e]
    ensures Without([], query) == []
  {
  }

  lemma AsksAppend(entries: seq<Entry>, e: Entry, query: Option<string>)
    ensures Asks(entries + [e], query) <==> Asks(entries, query) || e.query == query
  {
    assert forall x :: x in entries + [e] <==> x in entries || x == e;
  }

  /** What happened to one bucket: writes whose load or store may have failed, and the loss of the bucket. */
  datatype BucketEvent = Remembered(entry: Entry, loaded: bool, stored: bool) | Expired

  /** The bucket as the cache keeps it, truncated by every write. */
  function Bucket(events: seq<BucketEvent>): seq<Entry>
    decreases |events|
  {
    if events == [] then []
    else
      var before := Bucket(events[..|events| - 1]);
      match events[|events| - 1]
      case Expired => []
      case Remembered(e, loaded, stored) => if stored then Rewritten(if loaded then before else [], e) else before
  }

  /** Every write since the bucket was last lost or its load failed, without any bound. */
  function Writes(events: seq<BucketEvent>): seq<Entry>
    decreases |events|
  {
    if events == [] then []
    else
      var before := Writes(events[..|events| - 1]);
      match events[|events| - 1]
      case Expired => []
      case Remembered(e, loaded, stored) => if stored then (if loaded then before else []) + [e] else before
  }

  /** The bounded bucket is the unbounded history, reduced to the last write of each query, cut to its last 30. */
  lemma {:induction false} BucketIsRecentHistory(events: seq<BucketEvent>)
    ensures Bucket(events) == LastOf(LastWrites(Writes(events)), BUCKET_LIMIT)
    decreases |events|
  {
    if events != [] {
      var prefix := events[..|events| - 1];
      BucketIsRecentHistory(prefix);
      match events[|events| - 1]
      case Expired =>
      case Remembered(e, loaded, stored) => {
        var kept := if loaded then Writes(prefix) else [];
        LastWritesFacts(kept);
        LastWritesAppend(kept, e);
        TruncatingEarlyIsHarmless(LastWrites(kept), e);
      }
    }
  }

  // ---------------------------------------------------------------- overlapping writes

  /** One `remember` between its load and its store. */
  datatype Rewriting = Rewriting(entry: Entry, loaded: seq<Entry>)

  datatype SharedBucket = SharedBucket(stored: seq<Entry>, rewriting: seq<Rewriting>)

  datatype BucketAction = Load(entry: Entry, ok: bool) | Store(index: nat, ok: bool) | Lose

  function ApplyBucket(b: SharedBucket, a: BucketAction): SharedBucket {
    match a
    case Load(e, ok) => b.(rewriting := b.rewriting + [Rewriting(e, if ok then b.stored else [])])
    case Store(i, ok) =>
      if i < |b.rewriting| && ok then b.(stored := Rewritten(b.rewriting[i].loaded, b.rewriting[i].entry)) else b
    case Lose => b.(stored := [])
  }

  function RunBucket(trace: seq<BucketAction>): SharedBucket
    decreases |trace|
  {
    if trace == [] then SharedBucket([], []) else ApplyBucket(RunBucket(trace[..|trace| - 1]), trace[|trace| - 1])
  }

  lemma RewritingIsTidy(loaded: seq<Entry>, e: Entry)
    requires Tidy(loaded)
    ensures Tidy(Rewritten(loaded, e))
  {
    WithoutMembers(loaded, e.query);
    WithoutDistinct(loaded, e.query);
    var kept := Without(loaded, e.query);
    forall i | 0 <= i < |kept| ensures kept[i].query != e.query {
      assert kept[i] in kept;
    }
  }

  /** However the loads and stores of overlapping writes interleave and fail, and whenever the bucket is
      lost, what is stored has at most 30 entries and no query twice. */
  lemma {:induction false} EveryBucketIsTidy(trace: seq<BucketAction>)
    ensures Tidy(RunBucket(trace).stored) && |RunBucket(trace).stored| <= 30
    ensures forall r <- RunBucket(trace).rewriting :: Tidy(r.loaded)
    decreases |trace|
  {
    if trace != [] {
      var b := RunBucket(trace[..|trace| - 1]);
      EveryBucketIsTidy(trace[..|trace| - 1]);
      match trace[|trace| - 1]
      case Load(e, ok) =>
      case Store(i, ok) => if i < |b.rewriting| { RewritingIsTidy(b.rewriting[i].loaded, b.rewriting[i].entry); }
      case Lose =>
    }
  }

  // ---------------------------------------------------------------- normalised queries

  predicate IsMark(c: char) {
    c in {'\U{ff1f}', '?', '\U{3002}', '.', '!', '\U{ff01}', '~'}
  }

  function RStripMarks(s: string): string {
    if s != [] && IsMark(s[|s| - 1]) then RStripMarks(s[..|s| - 1]) else s
  }

  /** Every run of white space becomes one blank. */
  function Collapse(s: string): string {
    if s == [] then []
    else if !IsSpace(s[0]) then [s[0]] + Collapse(s[1..])
    else if |s| > 1 && IsSpace(s[1]) then Collapse(s[1..])
    else [' '] + Collapse(s[1..])
  }

  function Normalize(query: string): string {
    RStripMarks(Collapse(Strip(query)))
  }

  predicate IsCollapsed(s: string) {
    && (forall i | 0 <= i < |s| :: IsSpace(s[i]) ==> s[i] == ' ')
    && forall i | 0 < i < |s| :: !(IsSpace(s[i - 1]) && IsSpace(s[i]))
  }

  predicate EndsInSpace(s: string) {
    s != [] && IsSpace(s[|s| - 1])
  }

  lemma {:induction false} CollapseCollapses(s: string)
    ensures IsCollapsed(Collapse(s))
    ensures s != [] ==> Collapse(s) != [] && (IsSpace(Collapse(s)[0]) <==> IsSpace(s[0]))
  {
    hide IsSpace;
    if s != [] {
      var rest := s[1..];
      CollapseCollapses(rest);
      assert IsSpace(' ') by { BlankIsSpace(); }
      var front := if !IsSpace(s[0]) then [s[0]] else [' '];
      if !(IsSpace(s[0]) && |s| > 1 && IsSpace(s[1])) {
        IsCollapsedCons(front[0], Collapse(rest));
      }
    }
  }

  lemma BlankIsSpace()
    ensures IsSpace(' ')
  {
  }

  lemma IsCollapsedCons(c: char, s: string)
    requires IsCollapsed(s) && (IsSpace(c) ==> c == ' ' && (s == [] || !IsSpace(s[0])))
    ensures IsCollapsed([c] + s)
  {
    hide IsSpace;
  }

  lemma {:induction false} CollapseEnds(s: string)
    ensures |Collapse(s)| <= |s|
    ensures EndsInSpace(Collapse(s)) <==> EndsInSpace(s)
  {
    hide IsSpace;
    BlankIsSpace();
    if s != [] {
      CollapseEnds(s[1..]);
      CollapseCollapses(s[1..]);
    }
  }

  lemma {:induction false} CollapsedStays(s: string)
    requires IsCollapsed(s)
    ensures Collapse(s) == s
  {
    hide IsSpace;
    if s != [] {
      var rest := s[1..];
      assert forall i | 0 <= i < |rest| :: rest[i] == s[i + 1];
      CollapsedStays(rest);
    }
  }

  lemma {:induction false} CollapseAppend(s: string, c: char)
    requires !IsSpace(c)
    ensures Collapse(s + [c]) == Collapse(s) + [c]
  {
    if s == [] {
      assert s + [c] == [c];
    } else {
      assert (s + [c])[1..] == s[1..] + [c];
      CollapseAppend(s[1..], c);
    }
  }

  lemma {:induction false} CollapseKeepsMarks(s: string)
    ensures RStripMarks(Collapse(s)) == Collapse(RStripMarks(s))
    decreases |s|
  {
    CollapseEnds(s);
    if s != [] {
      var front, last := s[..|s| - 1], s[|s| - 1];
      assert s == front + [last];
      if IsMark(last) {
        CollapseAppend(front, last);
        CollapseKeepsMarks(front);
        assert (Collapse(front) + [last])[..|Collapse(front)|] == Collapse(front);
      } else if !IsSpace(last) {
        CollapseAppend(front, last);
      }
    }
  }

  lemma {:induction false} RStripMarksFacts(s: string)
    ensures RStripMarks(s) <= s
    ensures RStripMarks(s) == [] || !IsMark(RStripMarks(s)[|RStripMarks(s)| - 1])
    ensures RStripMarks(RStripMarks(s)) == RStripMarks(s)
    decreases |s|
  {
    if s != [] && IsMark(s[|s| - 1]) {
      RStripMarksFacts(s[..|s| - 1]);
    }
  }

  lemma {:induction false} LStripFacts(s: string)
    ensures |LStrip(s)| <= |s|
    ensures LStrip(s) != [] ==> (EndsInSpace(LStrip(s)) <==> EndsInSpace(s))
    ensures LStrip(s) == [] && s != [] ==> EndsInSpace(s)
    decreases |s|
  {
    if s != [] && IsSpace(s[0]) {
      LStripFacts(s[1..]);
    }
  }

  lemma {:induction false} RStripFacts(s: string)
    ensures |RStrip(s)| <= |s|
    ensures EndsInSpace(s) ==> |RStrip(s)| < |s|
    decreases |s|
  {
    if s != [] && IsSpace(s[|s| - 1]) {
      RStripFacts(s[..|s| - 1]);
    }
  }

  lemma StripShortens(s: string)
    requires EndsInSpace(s)
    ensures |Strip(s)| < |s|
  {
    LStripFacts(s);
    RStripFacts(LStrip(s));
  }

  lemma NormalizeIsShort(query: string)
    ensures |Normalize(query)| <= |Strip(query)|
  {
    hide Strip;
    CollapseEnds(Strip(query));
    RStripMarksFacts(Collapse(Strip(query)));
  }

  /** A normalised query: collapsed, without white space in front or marks at the end. */
  lemma NormalizeIsNormal(query: string)
    ensures var n := Normalize(query);
            && IsCollapsed(n) && (n != [] ==> !IsSpace(n[0])) && RStripMarks(n) == n
            && (EndsInSpace(n) <==> EndsInSpace(RStripMarks(Strip(query))))
  {
    hide Strip, IsSpace, IsMark;
    var s := Strip(query);
    StripIsStripped(query);
    CollapseCollapses(s);
    CollapseKeepsMarks(s);
    RStripMarksFacts(s);
    RStripMarksFacts(Collapse(s));
    CollapseEnds(RStripMarks(s));
  }

  /** Normalising twice is normalising once exactly when no white space stands before the closing marks. */
  lemma NormalizeIsIdempotent(query: string)
    ensures Normalize(Normalize(query)) == Normalize(query) <==> !EndsInSpace(RStripMarks(Strip(query)))
  {
    hide Strip, IsSpace, IsMark, Collapse, RStripMarks;
    NormalizeIsNormal(query);
    var n := Normalize(query);
    NormalizeIsShort(n);
    if EndsInSpace(n) {
      StripShortens(n);
    } else {
      StripIsStripped(n);
      assert Stripped(n) && Strip(n) == n;
      CollapsedStays(n);
    }
  }

  /** A query with white space before its question mark is not yet normal after one normalisation. */
  lemma NormalizingAgainChanges()
    ensures Normalize("a ?") == "a " && Normalize("a ") == "a"
  {
    StripIsStripped("a ?");
    StripOfTrailingBlank();
    assert Collapse("a ?") == "a ?" by {
      assert "a ?"[1..] == " ?" && " ?"[1..] == "?" && "?"[1..] == "";
      assert Collapse("?") == "?" && Collapse(" ?") == " ?";
    }
    assert "a ?"[..2] == "a " && RStripMarks("a ") == "a ";
    assert "a"[1..] == "" && Collapse("a") == "a" && RStripMarks("a") == "a";
  }

  lemma StripOfTrailingBlank()
    ensures Strip("a ") == "a"
  {
    assert "a "[..1] == "a" && LStrip("a ") == "a " && RStrip("a") == "a";
  }
}
