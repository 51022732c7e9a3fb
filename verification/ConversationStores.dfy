/** The two stores as objects, shown to do what the functions of `Conversations` say. */
module ConversationStores {
  import opened Common
  import opened Conversations

  lemma InsertKeepsAllNumbers(db: Database, turn: Turn)
    requires forall sessionId: string :: Numbered(RowsOf(db.messages, sessionId))
    ensures forall sessionId: string ::
              Numbered(RowsOf(Insert(db, turn, NextIndex(db, turn.sessionId)).messages, sessionId))
  {
    hide Numbered, RowsOf, Insert, NextIndex;
    NextIndexIsNext(db, turn.sessionId);
    forall sessionId: string ensures Numbered(RowsOf(Insert(db, turn, NextIndex(db, turn.sessionId)).messages, sessionId)) {
      InsertKeepsNumbers(db, turn, NextIndex(db, turn.sessionId), sessionId);
    }
  }

  lemma TopAreLast(rows: seq<Row>, limit: nat)
    requires Numbered(rows) && limit > 0
    ensures TurnsOf(Reverse(TopRows(rows, limit))) == LastTurns(TurnsOf(rows), limit)
  {
    hide Numbered, TopRows, LastTurns, TurnsOf, Reverse;
    NumberedTop(rows, limit);
    ReverseTwice(LastOf(rows, limit));
    LastRowsTurns(rows, limit);
  }

  lemma NoTurns()
    ensures TurnsOf([]) == []
  {
  }

  class SqlConversationStore {
    var sessions: map<string, Meta>
    var messages: seq<Row>

    /** The rows of every session are numbered in the order of their insertion. */
    ghost predicate Valid()
      reads this
    {
      forall sessionId: string :: Numbered(RowsOf(messages, sessionId))
    }

    constructor ()
      ensures Valid() && Db() == RunDatabase([])
    {
      sessions, messages := map[], [];
    }

    function Db(): Database
      reads this
    {
      Database(sessions, messages)
    }

    method TouchSession(sessionId: string, meta: Meta) returns (ok: bool)
      requires Valid()
      modifies this
      ensures Valid()
      ensures ok == DatabaseAccepts(old(Db()), Touch(sessionId, meta))
      ensures Db() == ApplyDatabase(old(Db()), Touch(sessionId, meta))
    {
      if sessionId !in sessions {
        sessions := sessions[sessionId := meta];
        return true;
      }
      if sessions[sessionId].buyerId != meta.buyerId {
        return false;
      }
      sessions := sessions[sessionId := meta];
      return true;
    }

    /** One transaction; an insert that violates a constraint rolls it back. */
    method AppendTurn(turn: Turn) returns (ok: bool)
      requires Valid()
      modifies this
      ensures Valid()
      ensures ok == DatabaseAccepts(old(Db()), Append(turn))
      ensures Db() == ApplyDatabase(old(Db()), Append(turn))
    {
      var lastIndex := MaxIndex(RowsOf(messages, turn.sessionId));
      var nextIndex := if lastIndex.None? then 0 else lastIndex.value + 1;
      ok := CanInsert(Db(), turn, nextIndex);
      if ok {
        InsertKeepsAllNumbers(Db(), turn);
        messages := messages + [Row(turn.sessionId, nextIndex, UtcTurn(turn))];
        assert messages == Insert(old(Db()), turn, NextIndex(old(Db()), turn.sessionId)).messages;
      }
    }

    /** The turns inserted last, at most `limit` of them, in the order of their insertion. */
    method ListTurns(sessionId: string, limit: int) returns (turns: seq<Turn>)
      requires Valid()
      ensures turns == LastTurns(TurnsOf(RowsOf(messages, sessionId)), limit)
      ensures turns == DatabaseTurns(Db(), sessionId, limit)
    {
      if limit <= 0 {
        return [];
      }
      hide Numbered, TopRows, RowsOf, LastTurns, Reverse, TurnsOf;
      TopAreLast(RowsOf(messages, sessionId), limit);
      var rows := Reverse(TopRows(RowsOf(messages, sessionId), limit));
      turns := [];
      NoTurns();
      for i := 0 to |rows|
        invariant turns == TurnsOf(rows[..i])
      {
        assert rows[..i + 1] == rows[..i] + [rows[i]];
        TurnsOfAppend(rows[..i], rows[i]);
        turns := turns + [rows[i].turn];
      }
      assert rows[..|rows|] == rows;
    }

    method FindSession(sessionId: string) returns (session: Option<Meta>)
      ensures session == DatabaseSession(Db(), sessionId)
    {
      session := if sessionId in sessions then Some(sessions[sessionId]) else None;
    }
  }

  class JsonFileConversationStore {
    var files: Files

    constructor ()
      ensures files == RunFiles([])
    {
      files := map[];
    }

    method AppendRecord(sessionId: string, record: Record)
      modifies this
      ensures files == old(files)[sessionId := Written(old(files), sessionId) + [record]]
    {
      files := files[sessionId := Written(files, sessionId) + [record]];
    }

    /** A line that is no record is skipped. */
    method ReadRecords(sessionId: string) returns (records: seq<Record>)
      ensures records == Readable(Written(files, sessionId))
    {
      hide Broken;
      records := [];
      if sessionId !in files {
        return;
      }
      var written := files[sessionId];
      for i := 0 to |written|
        invariant records == Readable(written[..i])
      {
        assert written[..i + 1][..i] == written[..i];
        if !Broken(written[i]) {
          records := records + [written[i]];
        }
      }
      assert written[..|written|] == written;
    }

    method TouchSession(sessionId: string, meta: Meta) returns (ok: bool)
      modifies this
      ensures ok == FilesAccept(old(files), Touch(sessionId, meta))
      ensures files == ApplyFiles(old(files), Touch(sessionId, meta))
    {
      hide FileSession, Readable, LatestSession;
      var existing := FindSession(sessionId);
      if existing.Some? && existing.value.buyerId != meta.buyerId {
        return false;
      }
      AppendRecord(sessionId, SessionRecord(sessionId, meta));
      return true;
    }

    method AppendTurn(turn: Turn)
      modifies this
      ensures files == ApplyFiles(old(files), Append(turn))
    {
      AppendRecord(turn.sessionId, TurnRecord(turn));
    }

    method ListTurns(sessionId: string, limit: int) returns (turns: seq<Turn>)
      ensures turns == FileTurns(files, sessionId, limit)
    {
      if limit <= 0 {
        return [];
      }
      var records := ReadRecords(sessionId);
      turns := [];
      for i := 0 to |records|
        invariant turns == FileTurnsIn(records[..i])
      {
        assert records[..i + 1][..i] == records[..i];
        if records[i].TurnRecord? {
          turns := turns + [records[i].turn];
        }
      }
      assert records[..|records|] == records;
      turns := if |turns| <= limit then turns else turns[|turns| - limit..];
    }

    method FindSession(sessionId: string) returns (latest: Option<Meta>)
      ensures latest == FileSession(files, sessionId)
    {
      hide Broken;
      var records := ReadRecords(sessionId);
      latest := None;
      for i := 0 to |records|
        invariant latest == LatestSession(records[..i])
      {
        assert records[..i + 1][..i] == records[..i];
        if records[i].SessionRecord? {
          latest := Some(records[i].meta);
        }
      }
      assert records[..|records|] == records;
    }
  }
}
