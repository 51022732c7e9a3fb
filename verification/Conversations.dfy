/**
 Two conversation stores that are meant to show the same history: rows in a database, and an
 append-only file of records per session.

 The file is read back with `splitlines`, which also splits at U+0085, U+2028 and U+2029; these are
 written unescaped, so that a record containing one is read back as pieces, none of which is a record.
 */
module Conversations {
  import opened Common

  /** An ISO timestamp: a wall clock with or without an offset from UTC; or text that is none. */
  datatype Timestamp = Iso(wall: int, offset: Option<int>) | NotIso(text: string)

  datatype Turn = Turn(
    sessionId: string, buyerId: string, role: string, content: string, model: string,
    latencyMs: nat, createdAt: Timestamp)

  datatype Meta = Meta(buyerId: string, locale: string, currency: string)

  /** The same instant in UTC; a clock without offset is taken as UTC. */
  function Utc(t: Timestamp): Timestamp {
    match t
    case Iso(wall, offset) => Iso(wall - if offset.Some? then offset.value else 0, Some(0))
    case NotIso(_) => t
  }

  /** What a clock with this offset from UTC shows at an instant, which is given as UTC time. */
  function Reading(instant: int, offset: int): Timestamp {
    Iso(instant + offset, Some(offset))
  }

  /** Whatever clocks show of one instant is the same in UTC, and only of one instant; without an offset the
      clock is taken to show UTC. */
  lemma ReadingsOfOneInstant(instant: int, offset: int, other: int, otherOffset: int)
    ensures Utc(Reading(instant, offset)) == Utc(Reading(other, otherOffset)) <==> instant == other
    ensures Utc(Reading(instant, offset)) == Reading(instant, 0) == Utc(Iso(instant, None))
  {
  }

  function UtcTurn(t: Turn): Turn {
    t.(createdAt := Utc(t.createdAt))
  }

  function UtcTurns(ts: seq<Turn>): (r: seq<Turn>)
    ensures |r| == |ts|
  {
    seq(|ts|, i requires 0 <= i < |ts| => UtcTurn(ts[i]))
  }

  /** turns[-limit:], and nothing for a limit that is not positive. */
  function LastTurns(ts: seq<Turn>, limit: int): seq<Turn> {
    if limit <= 0 then [] else LastOf(ts, limit)
  }

  datatype Op = Touch(sessionId: string, meta: Meta) | Append(turn: Turn)

  // ---------------------------------------------------------------- the database

  datatype Row = Row(sessionId: string, turnIndex: int, turn: Turn)

  datatype Database = Database(sessions: map<string, Meta>, messages: seq<Row>)

  function RowsOf(messages: seq<Row>, sessionId: string): seq<Row> {
    if messages == [] then []
    else
      var last := messages[|messages| - 1];
      RowsOf(messages[..|messages| - 1], sessionId) + if last.sessionId == sessionId then [last] else []
  }

  /** select max(turn_index): None without rows. */
  function MaxIndex(rows: seq<Row>): Option<int> {
    if rows == [] then None
    else
      var rest := MaxIndex(rows[..|rows| - 1]);
      var index := rows[|rows| - 1].turnIndex;
      Some(if rest.Some? && rest.value > index then rest.value else index)
  }

  function NextIndex(db: Database, sessionId: string): int {
    var last := MaxIndex(RowsOf(db.messages, sessionId));
    if last.None? then 0 else last.value + 1
  }

  /** The foreign key, the unique constraint, and the timestamp that must be readable. */
  predicate CanInsert(db: Database, turn: Turn, index: int) {
    && turn.createdAt.Iso?
    && turn.sessionId in db.sessions
    && forall row <- RowsOf(db.messages, turn.sessionId) :: row.turnIndex != index
  }

  function Insert(db: Database, turn: Turn, index: int): Database {
    if CanInsert(db, turn, index) then db.(messages := db.messages + [Row(turn.sessionId, index, UtcTurn(turn))]) else db
  }

  predicate DatabaseAccepts(db: Database, op: Op) {
    match op
    case Touch(sessionId, meta) => sessionId in db.sessions ==> db.sessions[sessionId].buyerId == meta.buyerId
    case Append(turn) => CanInsert(db, turn, NextIndex(db, turn.sessionId))
  }

  function ApplyDatabase(db: Database, op: Op): Database {
    if !DatabaseAccepts(db, op) then db
    else match op
      case Touch(sessionId, meta) => db.(sessions := db.sessions[sessionId := meta])
      case Append(turn) => Insert(db, turn, NextIndex(db, turn.sessionId))
  }

  function RunDatabase(ops: seq<Op>): Database
    decreases |ops|
  {
    if ops == [] then Database(map[], []) else ApplyDatabase(RunDatabase(ops[..|ops| - 1]), ops[|ops| - 1])
  }

  /** order by turn_index desc limit n: the row with the greatest index first. */
  function TopRows(rows: seq<Row>, limit: nat): seq<Row>
    decreases limit
  {
    if limit == 0 || rows == [] then []
    else
      var k := MaxAt(rows);
      [rows[k]] + TopRows(rows[..k] + rows[k + 1..], limit - 1)
  }

  function MaxAt(rows: seq<Row>): (k: nat)
    requires rows != []
    ensures k < |rows| && forall row <- rows :: row.turnIndex <= rows[k].turnIndex
  {
    if |rows| == 1 then 0
    else
      var k := MaxAt(rows[..|rows| - 1]);
      assert forall row <- rows :: row in rows[..|rows| - 1] || row == rows[|rows| - 1];
      if rows[|rows| - 1].turnIndex > rows[k].turnIndex then |rows| - 1 else k
  }

  function Reverse<T>(xs: seq<T>): seq<T> {
    seq(|xs|, i requires 0 <= i < |xs| => xs[|xs| - 1 - i])
  }

  function TurnsOf(rows: seq<Row>): seq<Turn> {
    seq(|rows|, i requires 0 <= i < |rows| => rows[i].turn)
  }

  function DatabaseTurns(db: Database, sessionId: string, limit: int): seq<Turn> {
    if limit <= 0 then [] else TurnsOf(Reverse(TopRows(RowsOf(db.messages, sessionId), limit)))
  }

  function DatabaseSession(db: Database, sessionId: string): Option<Meta> {
    if sessionId in db.sessions then Some(db.sessions[sessionId]) else None
  }

  // ---------------------------------------------------------------- the files

  datatype Record = SessionRecord(sessionId: string, meta: Meta) | TurnRecord(turn: Turn)

  type Files = map<string, seq<Record>>

  predicate Splits(s: string) {
    exists c <- s :: c == '\U{85}' || c == '\U{2028}' || c == '\U{2029}'
  }

  predicate SplitsTime(t: Timestamp) {
    t.NotIso? && Splits(t.text)
  }

  predicate BrokenTurn(t: Turn) {
    Splits(t.sessionId) || Splits(t.buyerId) || Splits(t.role) || Splits(t.content) || Splits(t.model) || SplitsTime(t.createdAt)
  }

  predicate BrokenMeta(sessionId: string, meta: Meta) {
    Splits(sessionId) || Splits(meta.buyerId) || Splits(meta.locale) || Splits(meta.currency)
  }

  predicate Broken(r: Record) {
    match r
    case SessionRecord(sessionId, meta) => BrokenMeta(sessionId, meta)
    case TurnRecord(turn) => BrokenTurn(turn)
  }

  function Written(files: Files, sessionId: string): seq<Record> {
    if sessionId in files then files[sessionId] else []
  }

  /** _read_records */
  function Readable(records: seq<Record>): seq<Record> {
    if records == [] then []
    else
      var last := records[|records| - 1];
      Readable(records[..|records| - 1]) + if Broken(last) then [] else [last]
  }

  function FileTurnsIn(records: seq<Record>): seq<Turn> {
    if records == [] then []
    else
      var last := records[|records| - 1];
      FileTurnsIn(records[..|records| - 1]) + if last.TurnRecord? then [last.turn] else []
  }

  /** The latest session record. */
  function LatestSession(records: seq<Record>): Option<Meta> {
    if records == [] then None
    else
      var last := records[|records| - 1];
      if last.SessionRecord? then Some(last.meta) else LatestSession(records[..|records| - 1])
  }

  function FileTurns(files: Files, sessionId: string, limit: int): seq<Turn> {
    LastTurns(FileTurnsIn(Readable(Written(files, sessionId))), limit)
  }

  function FileSession(files: Files, sessionId: string): Option<Meta> {
    LatestSession(Readable(Written(files, sessionId)))
  }

  predicate FilesAccept(files: Files, op: Op) {
    op.Touch? ==>
      var existing := FileSession(files, op.sessionId);
      existing.Some? ==> existing.value.buyerId == op.meta.buyerId
  }

  function ApplyFiles(files: Files, op: Op): Files {
    if !FilesAccept(files, op) then files
    else match op
      case Touch(sessionId, meta) => files[sessionId := Written(files, sessionId) + [SessionRecord(sessionId, meta)]]
      case Append(turn) => files[turn.sessionId := Written(files, turn.sessionId) + [TurnRecord(turn)]]
  }

  function RunFiles(ops: seq<Op>): Files
    decreases |ops|
  {
    if ops == [] then map[] else ApplyFiles(RunFiles(ops[..|ops| - 1]), ops[|ops| - 1])
  }

  // ---------------------------------------------------------------- turn indices

  /** The rows of a session carry the indices 0, 1, 2, ... in the order in which they were inserted. */
  predicate Numbered(rows: seq<Row>) {
    forall i | 0 <= i < |rows| :: rows[i].turnIndex == i
  }

  lemma {:induction false} NumberedMax(rows: seq<Row>)
    requires Numbered(rows)
    ensures MaxIndex(rows) == if rows == [] then None else Some(|rows| - 1)
  {
    if rows != [] {
      NumberedMax(rows[..|rows| - 1]);
    }
  }

  lemma RowsOfAppend(messages: seq<Row>, row: Row, sessionId: string)
    ensures RowsOf(messages + [row], sessionId) == RowsOf(messages, sessionId) + if row.sessionId == sessionId then [row] else []
  {
    assert (messages + [row])[..|messages|] == messages;
  }

  /** An insert with an index that other transactions may have taken meanwhile keeps every session numbered. */
  lemma InsertKeepsNumbers(db: Database, turn: Turn, index: int, sessionId: string)
    requires Numbered(RowsOf(db.messages, sessionId))
    requires turn.sessionId == sessionId ==> 0 <= index <= |RowsOf(db.messages, sessionId)|
    ensures Numbered(RowsOf(Insert(db, turn, index).messages, sessionId))
  {
    RowsOfAppend(db.messages, Row(turn.sessionId, index, UtcTurn(turn)), sessionId);
    var rows := RowsOf(db.messages, sessionId);
    if turn.sessionId == sessionId && index < |rows| {
      assert rows[index] in rows;
    }
  }

  lemma NextIndexIsNext(db: Database, sessionId: string)
    requires Numbered(RowsOf(db.messages, sessionId))
    ensures NextIndex(db, sessionId) == |RowsOf(db.messages, sessionId)|
  {
    NumberedMax(RowsOf(db.messages, sessionId));
  }

  lemma ReverseAppend<T>(xs: seq<T>, x: T)
    ensures Reverse(xs + [x]) == [x] + Reverse(xs)
  {
  }

  /** The rows with the greatest indices are the rows inserted last. */
  lemma {:induction false} NumberedTop(rows: seq<Row>, limit: nat)
    requires Numbered(rows)
    ensures TopRows(rows, limit) == Reverse(LastOf(rows, limit))
    decreases limit
  {
    hide Reverse, MaxAt, LastOf;
    if limit == 0 || rows == [] {
      LastRowsNothing(rows, limit);
      ReverseNothing<Row>();
    } else {
      var k := MaxAt(rows);
      assert rows[|rows| - 1] in rows && k == |rows| - 1;
      assert rows[..k] + rows[k + 1..] == rows[..k];
      NumberedTop(rows[..k], limit - 1);
      LastRowsFront(rows, limit);
      ReverseAppend(LastOf(rows[..k], limit - 1), rows[k]);
    }
  }

  lemma LastRowsNothing(rows: seq<Row>, limit: nat)
    requires limit == 0 || rows == []
    ensures LastOf(rows, limit) == []
  {
  }

  lemma LastRowsFront(rows: seq<Row>, limit: nat)
    requires limit > 0 && rows != []
    ensures LastOf(rows, limit) == LastOf(rows[..|rows| - 1], limit - 1) + [rows[|rows| - 1]]
  {
  }

  lemma ReverseNothing<T>()
    ensures Reverse<T>([]) == []
  {
  }

  lemma ReverseTwice<T>(xs: seq<T>)
    ensures Reverse(Reverse(xs)) == xs
  {
  }

  // ---------------------------------------------------------------- overlapping transactions

  /** An append that has read the greatest index and not yet inserted its row. */
  datatype Appending = Appending(turn: Turn, index: int)

  datatype SharedDatabase = SharedDatabase(db: Database, appending: seq<Appending>)

  datatype Transaction = TouchNow(sessionId: string, meta: Meta) | ReadIndex(turn: Turn) | Commit(k: nat)

  function ApplyShared(s: SharedDatabase, t: Transaction): SharedDatabase {
    match t
    case TouchNow(sessionId, meta) => s.(db := ApplyDatabase(s.db, Touch(sessionId, meta)))
    case ReadIndex(turn) => s.(appending := s.appending + [Appending(turn, NextIndex(s.db, turn.sessionId))])
    case Commit(k) => if k < |s.appending| then s.(db := Insert(s.db, s.appending[k].turn, s.appending[k].index)) else s
  }

  function RunShared(trace: seq<Transaction>): SharedDatabase
    decreases |trace|
  {
    if trace == [] then SharedDatabase(Database(map[], []), []) else ApplyShared(RunShared(trace[..|trace| - 1]), trace[|trace| - 1])
  }

  predicate ReadEarlier(a: Appending, db: Database) {
    0 <= a.index <= |RowsOf(db.messages, a.turn.sessionId)|
  }

  /** However appends overlap, the indices of a session are exactly 0..n-1 in the order of insertion. */
  lemma {:induction false} IndicesAreDense(trace: seq<Transaction>, sessionId: string)
    ensures var s := RunShared(trace);
            && Numbered(RowsOf(s.db.messages, sessionId))
            && forall a <- s.appending :: a.turn.sessionId == sessionId ==> ReadEarlier(a, s.db)
    decreases |trace|
  {
    if trace != [] {
      var before := RunShared(trace[..|trace| - 1]);
      IndicesAreDense(trace[..|trace| - 1], sessionId);
      SharedStep(before, trace[|trace| - 1], sessionId);
    }
  }

  lemma SharedStep(s: SharedDatabase, t: Transaction, sessionId: string)
    requires Numbered(RowsOf(s.db.messages, sessionId))
    requires forall a <- s.appending :: a.turn.sessionId == sessionId ==> ReadEarlier(a, s.db)
    ensures Numbered(RowsOf(ApplyShared(s, t).db.messages, sessionId))
    ensures forall a <- ApplyShared(s, t).appending :: a.turn.sessionId == sessionId ==> ReadEarlier(a, ApplyShared(s, t).db)
  {
    hide Numbered, RowsOf, NextIndex, Insert, ApplyDatabase, ReadEarlier;
    match t
    case TouchNow(id, meta) => TouchKeepsMessages(s.db, id, meta, sessionId);
    case ReadIndex(turn) => if turn.sessionId == sessionId { NextIsReadEarlier(s.db, turn); }
    case Commit(k) => if k < |s.appending| {
      var a := s.appending[k];
      assert a in s.appending;
      CommitKeeps(s.db, a, sessionId);
      forall b <- s.appending | b.turn.sessionId == sessionId ensures ReadEarlier(b, Insert(s.db, a.turn, a.index)) {
        InsertKeepsReads(s.db, a, b);
      }
    }
  }

  lemma TouchKeepsMessages(db: Database, id: string, meta: Meta, sessionId: string)
    ensures RowsOf(ApplyDatabase(db, Touch(id, meta)).messages, sessionId) == RowsOf(db.messages, sessionId)
    ensures forall a :: ReadEarlier(a, db) ==> ReadEarlier(a, ApplyDatabase(db, Touch(id, meta)))
  {
    hide RowsOf;
    assert ApplyDatabase(db, Touch(id, meta)).messages == db.messages;
  }

  lemma NextIsReadEarlier(db: Database, turn: Turn)
    requires Numbered(RowsOf(db.messages, turn.sessionId))
    ensures ReadEarlier(Appending(turn, NextIndex(db, turn.sessionId)), db)
  {
    hide RowsOf, NextIndex, Numbered;
    NextIndexIsNext(db, turn.sessionId);
  }

  lemma CommitKeeps(db: Database, a: Appending, sessionId: string)
    requires Numbered(RowsOf(db.messages, sessionId))
    requires a.turn.sessionId == sessionId ==> ReadEarlier(a, db)
    ensures Numbered(RowsOf(Insert(db, a.turn, a.index).messages, sessionId))
  {
    hide RowsOf, Numbered, Insert;
    InsertKeepsNumbers(db, a.turn, a.index, sessionId);
  }

  /** Inserting a row takes no row away. */
  lemma InsertKeepsReads(db: Database, a: Appending, b: Appending)
    requires ReadEarlier(b, db)
    ensures ReadEarlier(b, Insert(db, a.turn, a.index))
  {
    hide RowsOf, CanInsert, UtcTurn;
    RowsOfAppend(db.messages, Row(a.turn.sessionId, a.index, UtcTurn(a.turn)), b.turn.sessionId);
  }

  // ---------------------------------------------------------------- the two stores agree

  /** The turns of a session that the database accepted. */
  function Accepted(ops: seq<Op>, sessionId: string): seq<Turn>
    decreases |ops|
  {
    if ops == [] then []
    else
      var op := ops[|ops| - 1];
      Accepted(ops[..|ops| - 1], sessionId) +
      if op.Append? && op.turn.sessionId == sessionId && DatabaseAccepts(RunDatabase(ops[..|ops| - 1]), op) then [op.turn] else []
  }

  /** The turns of a session that can be read back from its file. */
  function Unbroken(ops: seq<Op>, sessionId: string): seq<Turn>
    decreases |ops|
  {
    if ops == [] then []
    else
      var op := ops[|ops| - 1];
      Unbroken(ops[..|ops| - 1], sessionId) +
      if op.Append? && op.turn.sessionId == sessionId && !BrokenTurn(op.turn) then [op.turn] else []
  }

  lemma TurnsOfAppend(rows: seq<Row>, row: Row)
    ensures TurnsOf(rows + [row]) == TurnsOf(rows) + [row.turn]
  {
  }

  lemma UtcTurnsAppend(ts: seq<Turn>, t: Turn)
    ensures UtcTurns(ts + [t]) == UtcTurns(ts) + [UtcTurn(t)]
  {
  }

  lemma {:induction false} DatabaseHolds(ops: seq<Op>, sessionId: string)
    ensures var rows := RowsOf(RunDatabase(ops).messages, sessionId);
            Numbered(rows) && TurnsOf(rows) == UtcTurns(Accepted(ops, sessionId))
    decreases |ops|
  {
    if ops != [] {
      var before := RunDatabase(ops[..|ops| - 1]);
      var op := ops[|ops| - 1];
      DatabaseHolds(ops[..|ops| - 1], sessionId);
      if op.Append? && DatabaseAccepts(before, op) {
        AppendHolds(before, op.turn, Accepted(ops[..|ops| - 1], sessionId), sessionId);
      }
    }
  }

  lemma AppendHolds(db: Database, turn: Turn, accepted: seq<Turn>, sessionId: string)
    requires var rows := RowsOf(db.messages, sessionId);
             Numbered(rows) && TurnsOf(rows) == UtcTurns(accepted)
    requires DatabaseAccepts(db, Append(turn))
    ensures var rows := RowsOf(ApplyDatabase(db, Append(turn)).messages, sessionId);
            Numbered(rows) && TurnsOf(rows) == UtcTurns(accepted + if turn.sessionId == sessionId then [turn] else [])
  {
    hide CanInsert, TurnsOf, UtcTurns, UtcTurn, RowsOf, MaxIndex, NextIndex;
    var rows := RowsOf(db.messages, sessionId);
    var row := Row(turn.sessionId, NextIndex(db, turn.sessionId), UtcTurn(turn));
    assert ApplyDatabase(db, Append(turn)).messages == db.messages + [row];
    RowsOfAppend(db.messages, row, sessionId);
    if turn.sessionId == sessionId {
      NextIndexIsNext(db, sessionId);
      TurnsOfAppend(rows, row);
      UtcTurnsAppend(accepted, turn);
    } else {
      assert accepted + [] == accepted && rows + [] == rows;
    }
  }

  lemma LastRowsTurns(rows: seq<Row>, limit: nat)
    requires limit > 0
    ensures TurnsOf(LastOf(rows, limit)) == LastTurns(TurnsOf(rows), limit)
  {
  }

  /** What the database lists: the last accepted turns in the order of writing. */
  lemma DatabaseListsAccepted(ops: seq<Op>, sessionId: string, limit: int)
    ensures DatabaseTurns(RunDatabase(ops), sessionId, limit) == LastTurns(UtcTurns(Accepted(ops, sessionId)), limit)
  {
    hide Reverse, TurnsOf, UtcTurns;
    var rows := RowsOf(RunDatabase(ops).messages, sessionId);
    DatabaseHolds(ops, sessionId);
    if limit > 0 {
      NumberedTop(rows, limit);
      ReverseTwice(LastOf(rows, limit));
      LastRowsTurns(rows, limit);
    }
  }

  lemma ReadableAppend(records: seq<Record>, r: Record)
    ensures Readable(records + [r]) == Readable(records) + if Broken(r) then [] else [r]
  {
    assert (records + [r])[..|records|] == records;
  }

  lemma FileTurnsInAppend(records: seq<Record>, r: Record)
    ensures FileTurnsIn(records + [r]) == FileTurnsIn(records) + if r.TurnRecord? then [r.turn] else []
  {
    assert (records + [r])[..|records|] == records;
  }

  lemma {:induction false} FileHolds(ops: seq<Op>, sessionId: string)
    ensures FileTurnsIn(Readable(Written(RunFiles(ops), sessionId))) == Unbroken(ops, sessionId)
    decreases |ops|
  {
    hide BrokenTurn, Readable, FileTurnsIn, ApplyFiles, Written;
    if ops == [] {
      NothingWritten(sessionId);
    } else {
      FileHolds(ops[..|ops| - 1], sessionId);
      FileStep(RunFiles(ops[..|ops| - 1]), ops[|ops| - 1], sessionId);
    }
  }

  lemma NothingWritten(sessionId: string)
    ensures FileTurnsIn(Readable(Written(map[], sessionId))) == []
  {
  }

  lemma FileStep(files: Files, op: Op, sessionId: string)
    ensures FileTurnsIn(Readable(Written(ApplyFiles(files, op), sessionId))) ==
            FileTurnsIn(Readable(Written(files, sessionId))) +
            if op.Append? && op.turn.sessionId == sessionId && !BrokenTurn(op.turn) then [op.turn] else []
  {
    hide BrokenTurn, BrokenMeta, Readable, FileTurnsIn;
    var r := if op.Touch? then SessionRecord(op.sessionId, op.meta) else TurnRecord(op.turn);
    var readable := Readable(Written(files, sessionId));
    ReadableAppend(Written(files, sessionId), r);
    FileTurnsInAppend(readable, r);
    assert readable + [] == readable && FileTurnsIn(readable) + [] == FileTurnsIn(readable);
  }

  /** What the file lists: the last turns that can be read back, in the order of writing. */
  lemma FilesListUnbroken(ops: seq<Op>, sessionId: string, limit: int)
    ensures FileTurns(RunFiles(ops), sessionId, limit) == LastTurns(Unbroken(ops, sessionId), limit)
  {
    FileHolds(ops, sessionId);
  }

  lemma LastTurnsUtc(ts: seq<Turn>, limit: int)
    ensures UtcTurns(LastTurns(ts, limit)) == LastTurns(UtcTurns(ts), limit)
  {
  }

  /** Somebody touched the session. */
  predicate TouchedIn(ops: seq<Op>, sessionId: string) {
    exists op <- ops :: op.Touch? && op.sessionId == sessionId
  }

  /** The database knows exactly the sessions that were touched: the first touch is never refused. */
  lemma {:induction false} KnownIsTouched(ops: seq<Op>, sessionId: string)
    ensures sessionId in RunDatabase(ops).sessions <==> TouchedIn(ops, sessionId)
    decreases |ops|
  {
    hide CanInsert;
    if ops != [] {
      var front, op := ops[..|ops| - 1], ops[|ops| - 1];
      KnownIsTouched(front, sessionId);
      assert forall o :: o in ops <==> o in front || o == op;
      assert op in ops;
    }
  }

  /** When the database accepts a turn. */
  lemma AppendIsAcceptedWhen(ops: seq<Op>, turn: Turn)
    ensures DatabaseAccepts(RunDatabase(ops), Append(turn)) <==> turn.createdAt.Iso? && TouchedIn(ops, turn.sessionId)
  {
    hide RunDatabase, RowsOf, TurnsOf, NextIndex, TouchedIn, Accepted;
    var db := RunDatabase(ops);
    KnownIsTouched(ops, turn.sessionId);
    DatabaseHolds(ops, turn.sessionId);
    NextIndexIsNext(db, turn.sessionId);
  }

  /** Every turn of the session has an ISO time and follows a touch of the session exactly if it contains none of
      the characters that break its record. */
  predicate TurnsFitBoth(ops: seq<Op>, sessionId: string) {
    forall k | 0 <= k < |ops| :: FitsBoth(ops, k, sessionId)
  }

  predicate FitsBoth(ops: seq<Op>, k: nat, sessionId: string)
    requires k < |ops|
  {
    ops[k].Append? && ops[k].turn.sessionId == sessionId ==>
      (ops[k].turn.createdAt.Iso? && TouchedIn(ops[..k], sessionId) <==> !BrokenTurn(ops[k].turn))
  }

  lemma LastAppendIsAcceptedWhen(ops: seq<Op>)
    requires ops != []
    ensures var front, op := ops[..|ops| - 1], ops[|ops| - 1];
            op.Append? ==>
              (DatabaseAccepts(RunDatabase(front), op) <==> op.turn.createdAt.Iso? && TouchedIn(front, op.turn.sessionId))
  {
    hide RunDatabase, DatabaseAccepts, TouchedIn;
    if ops[|ops| - 1].Append? {
      AppendIsAcceptedWhen(ops[..|ops| - 1], ops[|ops| - 1].turn);
    }
  }

  lemma {:induction false} FittingTurnsAreTheSame(ops: seq<Op>, sessionId: string)
    requires TurnsFitBoth(ops, sessionId)
    ensures Accepted(ops, sessionId) == Unbroken(ops, sessionId)
    decreases |ops|
  {
    hide BrokenTurn, DatabaseAccepts, TurnsFitBoth, RunDatabase, TouchedIn;
    if ops != [] {
      LastAppendIsAcceptedWhen(ops);
      TurnsFitFront(ops, sessionId);
      FittingTurnsAreTheSame(ops[..|ops| - 1], sessionId);
    }
  }

  lemma TurnsFitFront(ops: seq<Op>, sessionId: string)
    requires ops != []
    ensures TurnsFitBoth(ops, sessionId) <==> TurnsFitBoth(ops[..|ops| - 1], sessionId) && FitsBoth(ops, |ops| - 1, sessionId)
  {
    var front := ops[..|ops| - 1];
    forall k | 0 <= k < |front| ensures FitsBoth(front, k, sessionId) <==> FitsBoth(ops, k, sessionId) {
      assert front[..k] == ops[..k];
    }
    hide FitsBoth;
  }

  lemma {:induction false} UnbrokenAreUnbroken(ops: seq<Op>, sessionId: string)
    ensures forall t <- Unbroken(ops, sessionId) :: !BrokenTurn(t)
    decreases |ops|
  {
    hide BrokenTurn;
    if ops != [] {
      UnbrokenAreUnbroken(ops[..|ops| - 1], sessionId);
    }
  }

  /** Turns that are kept by both stores. */
  lemma {:induction false} SameTurnsFitBoth(ops: seq<Op>, sessionId: string)
    requires forall t <- Accepted(ops, sessionId) :: !BrokenTurn(t)
    ensures |Accepted(ops, sessionId)| <= |Unbroken(ops, sessionId)|
    ensures |Accepted(ops, sessionId)| == |Unbroken(ops, sessionId)| ==> TurnsFitBoth(ops, sessionId)
    decreases |ops|
  {
    hide BrokenTurn, DatabaseAccepts, TurnsFitBoth, RunDatabase, TouchedIn;
    if ops == [] {
      assert TurnsFitBoth(ops, sessionId) by { NoTurnsFit(sessionId); }
    } else {
      LastAppendIsAcceptedWhen(ops);
      TurnsFitFront(ops, sessionId);
      var front, op := ops[..|ops| - 1], ops[|ops| - 1];
      var added := if op.Append? && op.turn.sessionId == sessionId && DatabaseAccepts(RunDatabase(front), op) then [op.turn] else [];
      assert Accepted(ops, sessionId) == Accepted(front, sessionId) + added;
      assert added != [] ==> added[0] in Accepted(ops, sessionId);
      SameTurnsFitBoth(front, sessionId);
    }
  }

  lemma NoTurnsFit(sessionId: string)
    ensures TurnsFitBoth([], sessionId)
  {
  }

  /** For every run and every session: the two stores list the same turns, whatever the limit, exactly if the
      turns with an ISO time that follow a touch of the session, which the database keeps, are the turns without
      U+0085, U+2028 and U+2029, which the file keeps. */
  lemma StoresListTheSameTurns(ops: seq<Op>, sessionId: string)
    ensures (forall limit: int :: DatabaseTurns(RunDatabase(ops), sessionId, limit) == UtcTurns(FileTurns(RunFiles(ops), sessionId, limit)))
            <==> TurnsFitBoth(ops, sessionId)
  {
    hide DatabaseTurns, FileTurns, TurnsFitBoth, LastTurns, UtcTurns;
    var accepted, unbroken := Accepted(ops, sessionId), Unbroken(ops, sessionId);
    forall limit: int
      ensures DatabaseTurns(RunDatabase(ops), sessionId, limit) == LastTurns(UtcTurns(accepted), limit)
      ensures UtcTurns(FileTurns(RunFiles(ops), sessionId, limit)) == LastTurns(UtcTurns(unbroken), limit)
    {
      DatabaseListsAccepted(ops, sessionId, limit);
      FilesListUnbroken(ops, sessionId, limit);
      LastTurnsUtc(unbroken, limit);
    }
    if TurnsFitBoth(ops, sessionId) {
      FittingTurnsAreTheSame(ops, sessionId);
    } else {
      if UtcTurns(accepted) == UtcTurns(unbroken) {
        UnbrokenAreUnbroken(ops, sessionId);
        SameUtcSameBreaks(accepted, unbroken);
        SameTurnsFitBoth(ops, sessionId);
      }
      var limit := |accepted| + |unbroken| + 1;
      LastTurnsAll(UtcTurns(accepted), limit);
      LastTurnsAll(UtcTurns(unbroken), limit);
    }
  }

  /** A session that is touched before its turns are appended, with ISO times and without the three characters. */
  predicate WellBehaved(ops: seq<Op>, sessionId: string) {
    forall k | 0 <= k < |ops| :: ops[k].Append? && ops[k].turn.sessionId == sessionId ==>
      ops[k].turn.createdAt.Iso? && TouchedIn(ops[..k], sessionId) && !BrokenTurn(ops[k].turn)
  }

  /** Such a session loses no turn in either store, and both list its last turns in the order of writing. */
  lemma WellBehavedSessionsAgree(ops: seq<Op>, sessionId: string, limit: int)
    requires WellBehaved(ops, sessionId)
    ensures DatabaseTurns(RunDatabase(ops), sessionId, limit) == UtcTurns(LastTurns(AppendedTurns(ops, sessionId), limit))
    ensures FileTurns(RunFiles(ops), sessionId, limit) == LastTurns(AppendedTurns(ops, sessionId), limit)
  {
    hide TurnsFitBoth, LastTurns, UtcTurns, TouchedIn, BrokenTurn, DatabaseTurns, FileTurns;
    assert TurnsFitBoth(ops, sessionId) by { WellBehavedFits(ops, sessionId); }
    AllAreUnbroken(ops, sessionId);
    FittingTurnsAreTheSame(ops, sessionId);
    DatabaseListsAccepted(ops, sessionId, limit);
    FilesListUnbroken(ops, sessionId, limit);
    LastTurnsUtc(AppendedTurns(ops, sessionId), limit);
  }

  lemma WellBehavedFits(ops: seq<Op>, sessionId: string)
    requires WellBehaved(ops, sessionId)
    ensures TurnsFitBoth(ops, sessionId)
  {
    hide TouchedIn, BrokenTurn;
  }

  /** All turns that were offered for the session, oldest first. */
  function AppendedTurns(ops: seq<Op>, sessionId: string): seq<Turn>
    decreases |ops|
  {
    if ops == [] then []
    else
      var op := ops[|ops| - 1];
      AppendedTurns(ops[..|ops| - 1], sessionId) + if op.Append? && op.turn.sessionId == sessionId then [op.turn] else []
  }

  lemma {:induction false} AllAreUnbroken(ops: seq<Op>, sessionId: string)
    requires forall op <- ops | op.Append? && op.turn.sessionId == sessionId :: !BrokenTurn(op.turn)
    ensures Unbroken(ops, sessionId) == AppendedTurns(ops, sessionId)
    decreases |ops|
  {
    hide BrokenTurn;
    if ops != [] {
      assert forall op <- ops[..|ops| - 1] :: op in ops;
      AllAreUnbroken(ops[..|ops| - 1], sessionId);
    }
  }

  lemma LastTurnsAll(ts: seq<Turn>, limit: int)
    ensures 0 < limit && |ts| <= limit ==> LastTurns(ts, limit) == ts
  {
  }

  lemma SameUtcSameBreaks(a: seq<Turn>, b: seq<Turn>)
    requires UtcTurns(a) == UtcTurns(b) && forall t <- b :: !BrokenTurn(t)
    ensures |a| == |b| && forall t <- a :: !BrokenTurn(t)
  {
    hide Splits;
    assert |UtcTurns(a)| == |a| && |UtcTurns(b)| == |b|;
    forall i | 0 <= i < |a| ensures !BrokenTurn(a[i]) {
      assert UtcTurns(a)[i] == UtcTurn(a[i]) && UtcTurns(b)[i] == UtcTurn(b[i]);
      assert b[i] in b;
    }
  }
}
