/** Who owns a conversation, and what of a session the two stores show, over all runs. */
module SessionOwners {
  import opened Common
  import opened Conversations

  // ---------------------------------------------------------------- the owner in the database

  /** The buyer of the session's first touch. */
  function FirstBuyer(ops: seq<Op>, sessionId: string): Option<string>
    decreases |ops|
  {
    if ops == [] then None
    else
      var op := ops[|ops| - 1];
      var before := FirstBuyer(ops[..|ops| - 1], sessionId);
      if before.Some? then before
      else if op.Touch? && op.sessionId == sessionId then Some(op.meta.buyerId) else None
  }

  lemma {:induction false} FirstBuyerStays(ops: seq<Op>, k: nat, sessionId: string)
    requires k <= |ops|
    ensures FirstBuyer(ops[..k], sessionId).Some? ==> FirstBuyer(ops, sessionId) == FirstBuyer(ops[..k], sessionId)
    decreases |ops|
  {
    if k == |ops| {
      assert ops[..k] == ops;
    } else {
      assert ops[..|ops| - 1][..k] == ops[..k];
      FirstBuyerStays(ops[..|ops| - 1], k, sessionId);
    }
  }

  function BuyerOf(session: Option<Meta>): Option<string> {
    match session case None => None case Some(meta) => Some(meta.buyerId)
  }

  /** In the database a session belongs to the buyer of its first touch, for ever. */
  lemma {:induction false} DatabaseOwnerIsFirst(ops: seq<Op>, sessionId: string)
    ensures BuyerOf(DatabaseSession(RunDatabase(ops), sessionId)) == FirstBuyer(ops, sessionId)
    decreases |ops|
  {
    hide CanInsert;
    if ops != [] {
      DatabaseOwnerIsFirst(ops[..|ops| - 1], sessionId);
    }
  }

  /** So a later touch is accepted exactly if it names that buyer. */
  lemma TouchIsAcceptedWhen(ops: seq<Op>, sessionId: string, meta: Meta)
    ensures DatabaseAccepts(RunDatabase(ops), Touch(sessionId, meta)) <==>
            FirstBuyer(ops + [Touch(sessionId, meta)], sessionId) == Some(meta.buyerId)
  {
    hide RunDatabase;
    DatabaseOwnerIsFirst(ops, sessionId);
    assert (ops + [Touch(sessionId, meta)])[..|ops|] == ops;
  }

  // ---------------------------------------------------------------- the owner in the files

  lemma LatestSessionAppend(records: seq<Record>, r: Record)
    ensures LatestSession(records + [r]) == if r.SessionRecord? then Some(r.meta) else LatestSession(records)
  {
    assert (records + [r])[..|records|] == records;
  }

  lemma FileSessionStep(files: Files, op: Op, sessionId: string)
    ensures FileSession(ApplyFiles(files, op), sessionId) ==
            if op.Touch? && op.sessionId == sessionId && FilesAccept(files, op) && !BrokenMeta(sessionId, op.meta) then Some(op.meta)
            else FileSession(files, sessionId)
  {
    hide BrokenTurn, BrokenMeta, Readable, LatestSession, FilesAccept;
    var r := if op.Touch? then SessionRecord(op.sessionId, op.meta) else TurnRecord(op.turn);
    var readable := Readable(Written(files, sessionId));
    ReadableAppend(Written(files, sessionId), r);
    LatestSessionAppend(readable, r);
    assert readable + [] == readable;
  }

  lemma {:induction false} FileSessionIsUnbroken(ops: seq<Op>, sessionId: string)
    ensures var latest := FileSession(RunFiles(ops), sessionId);
            latest.Some? ==> !BrokenMeta(sessionId, latest.value)
    decreases |ops|
  {
    hide BrokenMeta, FileSession, ApplyFiles, FilesAccept;
    if ops == [] {
      assert FileSession(map[], sessionId) == None by { NoSession(sessionId); }
    } else {
      FileSessionIsUnbroken(ops[..|ops| - 1], sessionId);
      FileSessionStep(RunFiles(ops[..|ops| - 1]), ops[|ops| - 1], sessionId);
    }
  }

  lemma NoSession(sessionId: string)
    ensures FileSession(map[], sessionId) == None
  {
  }

  /** The buyer of the session's first touch that can be read back. */
  function FirstReadableBuyer(ops: seq<Op>, sessionId: string): Option<string>
    decreases |ops|
  {
    if ops == [] then None
    else
      var op := ops[|ops| - 1];
      var before := FirstReadableBuyer(ops[..|ops| - 1], sessionId);
      if before.Some? then before
      else if op.Touch? && op.sessionId == sessionId && !BrokenMeta(sessionId, op.meta) then Some(op.meta.buyerId) else None
  }

  /** In its file a session belongs to the buyer of the first touch that can be read back. */
  lemma {:induction false} FileOwnerIsFirstReadable(ops: seq<Op>, sessionId: string)
    ensures BuyerOf(FileSession(RunFiles(ops), sessionId)) == FirstReadableBuyer(ops, sessionId)
    decreases |ops|
  {
    hide FileSession, ApplyFiles, BrokenMeta;
    if ops == [] {
      NoSession(sessionId);
    } else {
      FileOwnerIsFirstReadable(ops[..|ops| - 1], sessionId);
      FileSessionStep(RunFiles(ops[..|ops| - 1]), ops[|ops| - 1], sessionId);
    }
  }

  lemma {:induction false} FirstReadableBuyerStays(ops: seq<Op>, k: nat, sessionId: string)
    requires k <= |ops|
    ensures FirstReadableBuyer(ops[..k], sessionId).Some? ==>
              FirstReadableBuyer(ops, sessionId) == FirstReadableBuyer(ops[..k], sessionId)
    decreases |ops|
  {
    hide BrokenMeta;
    if k == |ops| {
      assert ops[..k] == ops;
    } else {
      assert ops[..|ops| - 1][..k] == ops[..k];
      FirstReadableBuyerStays(ops[..|ops| - 1], k, sessionId);
    }
  }

  /** Once a store shows a session, it shows the same owner for ever. */
  lemma OwnerNeverChanges(ops: seq<Op>, k: nat, sessionId: string)
    requires k <= |ops|
    ensures var first := BuyerOf(DatabaseSession(RunDatabase(ops[..k]), sessionId));
            first.Some? ==> BuyerOf(DatabaseSession(RunDatabase(ops), sessionId)) == first
    ensures var first := BuyerOf(FileSession(RunFiles(ops[..k]), sessionId));
            first.Some? ==> BuyerOf(FileSession(RunFiles(ops), sessionId)) == first
  {
    hide BuyerOf, RunDatabase, RunFiles, FirstBuyer, FirstReadableBuyer;
    DatabaseOwnerIsFirst(ops[..k], sessionId);
    DatabaseOwnerIsFirst(ops, sessionId);
    FirstBuyerStays(ops, k, sessionId);
    FileOwnerIsFirstReadable(ops[..k], sessionId);
    FileOwnerIsFirstReadable(ops, sessionId);
    FirstReadableBuyerStays(ops, k, sessionId);
  }

  /** Whenever the file shows the session, it shows the buyer of the first touch as its owner. */
  predicate FileKeepsOwner(ops: seq<Op>, sessionId: string) {
    forall k | 0 <= k <= |ops| :: ShowsFirstBuyer(ops[..k], sessionId)
  }

  predicate ShowsFirstBuyer(ops: seq<Op>, sessionId: string) {
    var shown := BuyerOf(FileSession(RunFiles(ops), sessionId));
    shown.Some? ==> shown == FirstBuyer(ops, sessionId)
  }

  /** For every run: the file always shows the first buyer, and so the owner that the database shows, exactly if
      the first touch that can be read back, if there is one, is by that buyer.  Otherwise a second buyer, whose
      touches the database refuses, owns the session in the file for ever. */
  lemma FileKeepsOwnerWhen(ops: seq<Op>, sessionId: string)
    ensures FileKeepsOwner(ops, sessionId) <==>
            (FirstReadableBuyer(ops, sessionId).Some? ==> FirstReadableBuyer(ops, sessionId) == FirstBuyer(ops, sessionId))
  {
    hide BuyerOf, FileSession, RunFiles, FirstBuyer, FirstReadableBuyer;
    assert ops[..|ops|] == ops;
    FileOwnerIsFirstReadable(ops, sessionId);
    forall k | 0 <= k <= |ops|
      ensures FirstReadableBuyer(ops, sessionId).None? || FirstReadableBuyer(ops, sessionId) == FirstBuyer(ops, sessionId) ==>
                ShowsFirstBuyer(ops[..k], sessionId)
    {
      FileOwnerIsFirstReadable(ops[..k], sessionId);
      FirstReadableBuyerStays(ops, k, sessionId);
      ReadableIsTouched(ops[..k], sessionId);
      FirstBuyerStays(ops, k, sessionId);
    }
    if FileKeepsOwner(ops, sessionId) {
      assert ShowsFirstBuyer(ops[..|ops|], sessionId);
    }
  }

  lemma {:induction false} ReadableIsTouched(ops: seq<Op>, sessionId: string)
    ensures FirstReadableBuyer(ops, sessionId).Some? ==> FirstBuyer(ops, sessionId).Some?
    decreases |ops|
  {
    hide BrokenMeta;
    if ops != [] {
      ReadableIsTouched(ops[..|ops| - 1], sessionId);
    }
  }

  // ---------------------------------------------------------------- the same session in both

  predicate SameSession(ops: seq<Op>, sessionId: string) {
    DatabaseSession(RunDatabase(ops), sessionId) == FileSession(RunFiles(ops), sessionId)
  }

  /** A touch of the session by its first buyer, which is one that the database accepts, can be read back. */
  predicate TouchFits(ops: seq<Op>, k: nat, sessionId: string)
    requires k < |ops|
  {
    ops[k].Touch? && ops[k].sessionId == sessionId && FirstBuyer(ops[..k + 1], sessionId) == Some(ops[k].meta.buyerId) ==>
      !BrokenMeta(sessionId, ops[k].meta)
  }

  /** As long as both stores show the same session, they accept the same touches. */
  lemma SameSessionSameAnswer(ops: seq<Op>, sessionId: string, meta: Meta)
    requires SameSession(ops, sessionId)
    ensures DatabaseAccepts(RunDatabase(ops), Touch(sessionId, meta)) <==> FilesAccept(RunFiles(ops), Touch(sessionId, meta))
  {
    hide FileSession;
  }

  lemma SessionStep(ops: seq<Op>, sessionId: string)
    requires ops != [] && SameSession(ops[..|ops| - 1], sessionId)
    ensures SameSession(ops, sessionId) <==> TouchFits(ops, |ops| - 1, sessionId)
  {
    hide BrokenMeta, FileSession, ApplyFiles, CanInsert;
    var front, op := ops[..|ops| - 1], ops[|ops| - 1];
    FileSessionStep(RunFiles(front), op, sessionId);
    FileSessionIsUnbroken(front, sessionId);
    assert ops[..|ops| - 1 + 1] == ops && front + [op] == ops;
    if op.Touch? && op.sessionId == sessionId {
      SameSessionSameAnswer(front, sessionId, op.meta);
      TouchIsAcceptedWhen(front, sessionId, op.meta);
    }
  }

  /** For every run and every session: the two stores show the same buyer, locale and currency after each
      operation exactly if no touch by the session's first buyer contains U+0085, U+2028 or U+2029. */
  lemma {:induction false} StoresShowTheSameSession(ops: seq<Op>, sessionId: string)
    ensures (forall k | 0 <= k <= |ops| :: SameSession(ops[..k], sessionId))
            <==> (forall k | 0 <= k < |ops| :: TouchFits(ops, k, sessionId))
    decreases |ops|
  {
    hide SameSession, TouchFits;
    if ops == [] {
      NoSessionYet(sessionId);
      assert ops[..0] == [];
    } else {
      var front := ops[..|ops| - 1];
      StoresShowTheSameSession(front, sessionId);
      assert ops[..|ops|] == ops;
      assert forall k | 0 <= k <= |front| :: ops[..k] == front[..k];
      forall k | 0 <= k < |front| ensures TouchFits(ops, k, sessionId) <==> TouchFits(front, k, sessionId) {
        TouchFitsPrefix(ops, front, k, sessionId);
      }
      if forall k | 0 <= k <= |front| :: SameSession(front[..k], sessionId) {
        assert front[..|front|] == front && SameSession(front, sessionId);
        SessionStep(ops, sessionId);
      } else {
        var k :| 0 <= k <= |front| && !SameSession(front[..k], sessionId);
        assert !SameSession(ops[..k], sessionId);
      }
    }
  }

  lemma TouchFitsPrefix(ops: seq<Op>, front: seq<Op>, k: nat, sessionId: string)
    requires k < |front| && front <= ops
    ensures TouchFits(ops, k, sessionId) <==> TouchFits(front, k, sessionId)
  {
    assert ops[..k + 1] == front[..k + 1];
  }

  lemma NoSessionYet(sessionId: string)
    ensures SameSession([], sessionId)
  {
  }

  /** A session whose first touch has such a locale can be taken over by another buyer in the file store only. */
  lemma OwnerCanBeLostFromTheFile(sessionId: string, first: string, second: string, splitter: char)
    requires splitter in {'\U{85}', '\U{2028}', '\U{2029}'}
    requires first != second && !Splits(second) && !Splits(sessionId)
    ensures var ops := [Touch(sessionId, Meta(first, [splitter], "CNY")), Touch(sessionId, Meta(second, "zh-CN", "CNY"))];
            && DatabaseSession(RunDatabase(ops), sessionId) == Some(Meta(first, [splitter], "CNY"))
            && FileSession(RunFiles(ops), sessionId) == Some(Meta(second, "zh-CN", "CNY"))
  {
    hide FileSession, ApplyFiles, Splits, RunDatabase, RunFiles, ApplyDatabase;
    var a, b := Touch(sessionId, Meta(first, [splitter], "CNY")), Touch(sessionId, Meta(second, "zh-CN", "CNY"));
    RunTwo(a, b);
    TouchesInDatabase(sessionId, a.meta, b.meta);
    FileSessionStep(map[], a, sessionId);
    FileSessionStep(ApplyFiles(map[], a), b, sessionId);
    NoSession(sessionId);
    SomeSplit(splitter);
  }

  lemma RunTwo(a: Op, b: Op)
    ensures RunDatabase([a, b]) == ApplyDatabase(ApplyDatabase(Database(map[], []), a), b)
    ensures RunFiles([a, b]) == ApplyFiles(ApplyFiles(map[], a), b)
  {
    hide ApplyDatabase, ApplyFiles;
    assert [a, b][..1] == [a] && [a][..0] == [];
    assert RunDatabase([]) == Database(map[], []) && RunFiles([]) == map[];
    assert RunDatabase([a]) == ApplyDatabase(Database(map[], []), a) && RunFiles([a]) == ApplyFiles(map[], a);
  }

  lemma TouchesInDatabase(sessionId: string, first: Meta, second: Meta)
    requires first.buyerId != second.buyerId
    ensures ApplyDatabase(ApplyDatabase(Database(map[], []), Touch(sessionId, first)), Touch(sessionId, second)) ==
            Database(map[sessionId := first], [])
  {
    hide CanInsert;
  }

  lemma SomeSplit(splitter: char)
    requires splitter in {'\U{85}', '\U{2028}', '\U{2029}'}
    ensures Splits([splitter]) && !Splits("zh-CN") && !Splits("CNY")
  {
    assert splitter in [splitter];
  }
}
