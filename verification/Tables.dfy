/** The ledger's two SQLite tables and the triggers that guard them
    (src/nova_rtl/artifacts/ledger.py, `_initialize`), under arbitrary SQL statements. */
module Tables {
  import opened Prelude

  type Bytes = seq<bv8>

  const MAX_INTEGER := 0x7fff_ffff_ffff_ffff

  /** What an INTEGER column can hold. */
  type Integer = i: int | -MAX_INTEGER - 1 <= i <= MAX_INTEGER

  datatype EventRow = EventRow(rowid: int, eventId: string, runId: string, sequence: int, payload: Bytes, digest: string)

  datatype RecordRow = RecordRow(appendIndex: int, recordId: string, runId: string, payload: Bytes, digest: string)

  /** Rows in the order of their acceptance; `counter` is the sqlite_sequence entry. */
  datatype Db = Db(events: seq<EventRow>, records: seq<RecordRow>, counter: int)

  /** A row offered to run_events; `spare` is the number SQLite would try when the largest
      rowid is already taken. */
  datatype NewEvent = NewEvent(rowid: Option<Integer>, spare: Integer, eventId: string, runId: string,
                               sequence: Integer, payload: Bytes, digest: string)

  /** A row offered to experiment_records; `shown` is what a BEFORE trigger sees as
      NEW.append_index when the index is left to AUTOINCREMENT. */
  datatype NewRecord = NewRecord(index: Option<Integer>, shown: Integer, recordId: string, runId: string,
                                 payload: Bytes, digest: string)

  /** The conflict policy of an INSERT. */
  datatype Policy = Abort | Fail | Ignore | Replace | Rollback

  datatype Cause = Guard | Constraint | Full

  datatype Outcome<+T> = Inserted(table: T) | Skipped | Raised(cause: Cause)

  // ------------------------------------------------------------------------ run_events

  function MaxSequence(es: seq<EventRow>, run: string): Option<int> {
    if es == [] then None
    else
      var rest := MaxSequence(es[1..], run);
      if es[0].runId != run then rest
      else if rest.Some? && rest.value >= es[0].sequence then rest
      else Some(es[0].sequence)
  }

  function MaxRowid(es: seq<EventRow>): Option<int> {
    if es == [] then None
    else
      var rest := MaxRowid(es[1..]);
      if rest.Some? && rest.value >= es[0].rowid then rest else Some(es[0].rowid)
  }

  predicate HasEvent(es: seq<EventRow>, id: string) { exists e :: e in es && e.eventId == id }

  predicate HasRowid(es: seq<EventRow>, rowid: int) { exists e :: e in es && e.rowid == rowid }

  /** The trigger run_events_append_guard lets the row pass. */
  predicate EventGuard(es: seq<EventRow>, id: string, run: string, sequence: int) {
    !HasEvent(es, id) && (MaxSequence(es, run).Some? ==> sequence > MaxSequence(es, run).value)
  }

  /** The rowid the new row gets: its own, one past the largest, or the spare one. */
  function PickRowid(es: seq<EventRow>, n: NewEvent): Option<int> {
    if n.rowid.Some? then Some(n.rowid.value)
    else
      match MaxRowid(es)
      case None => Some(1)
      case Some(m) =>
        if m < MAX_INTEGER then Some(m + 1)
        else if HasRowid(es, n.spare) then None
        else Some(n.spare)
  }

  function Row(rowid: int, n: NewEvent): EventRow {
    EventRow(rowid, n.eventId, n.runId, n.sequence, n.payload, n.digest)
  }

  /** Two rows that one of the table's unique indices forbids to coexist. */
  predicate Clash(a: EventRow, b: EventRow) {
    a.rowid == b.rowid || a.eventId == b.eventId || (a.runId == b.runId && a.sequence == b.sequence)
  }

  /** REPLACE removes the rows in the way, and no DELETE trigger fires for them. */
  function WithoutClashes(es: seq<EventRow>, row: EventRow): seq<EventRow> {
    if es == [] then []
    else if Clash(es[0], row) then WithoutClashes(es[1..], row)
    else [es[0]] + WithoutClashes(es[1..], row)
  }

  function InsertEvent(policy: Policy, es: seq<EventRow>, n: NewEvent): Outcome<seq<EventRow>> {
    if !EventGuard(es, n.eventId, n.runId, n.sequence) then Raised(Guard)
    else if n.sequence < 0 then (if policy == Ignore then Skipped else Raised(Constraint))
    else
      match PickRowid(es, n)
      case None => Raised(Full)
      case Some(rowid) =>
        var row := Row(rowid, n);
        if forall e :: e in es ==> !Clash(e, row) then Inserted(es + [row])
        else
          match policy
          case Replace => Inserted(WithoutClashes(es, row) + [row])
          case Ignore => Skipped
          case _ => Raised(Constraint)
  }

  // ---------------------------------------------------------------- experiment_records

  function MaxIndex(rs: seq<RecordRow>): Option<int> {
    if rs == [] then None
    else
      var rest := MaxIndex(rs[1..]);
      if rest.Some? && rest.value >= rs[0].appendIndex then rest else Some(rs[0].appendIndex)
  }

  predicate HasRecord(rs: seq<RecordRow>, id: string) { exists r :: r in rs && r.recordId == id }

  predicate HasIndex(rs: seq<RecordRow>, index: int) { exists r :: r in rs && r.appendIndex == index }

  /** AUTOINCREMENT: past everything the table holds or ever held; none left at the top. */
  function NextIndex(rs: seq<RecordRow>, counter: int): Option<int> {
    var last := MaxIndex(rs);
    if (last.Some? && last.value >= MAX_INTEGER) || counter >= MAX_INTEGER then None
    else
      var v := if last.Some? then last.value + 1 else 1;
      Some(if v < counter + 1 then counter + 1 else v)
  }

  function RecordRowOf(index: int, n: NewRecord): RecordRow {
    RecordRow(index, n.recordId, n.runId, n.payload, n.digest)
  }

  predicate RecordClash(a: RecordRow, b: RecordRow) { a.appendIndex == b.appendIndex || a.recordId == b.recordId }

  function WithoutRecordClashes(rs: seq<RecordRow>, row: RecordRow): seq<RecordRow> {
    if rs == [] then []
    else if RecordClash(rs[0], row) then WithoutRecordClashes(rs[1..], row)
    else [rs[0]] + WithoutRecordClashes(rs[1..], row)
  }

  /** The AFTER trigger experiment_records_order_guard lets the row stay. */
  predicate OrderGuard(rs: seq<RecordRow>, index: int) {
    forall r :: r in rs && r.appendIndex != index ==> index > r.appendIndex
  }

  function InsertRecord(policy: Policy, rs: seq<RecordRow>, counter: int, n: NewRecord): Outcome<seq<RecordRow>> {
    if HasIndex(rs, if n.index.Some? then n.index.value else n.shown) || HasRecord(rs, n.recordId) then Raised(Guard)
    else
      match (if n.index.Some? then n.index else NextIndex(rs, counter))
      case None => Raised(Full)
      case Some(index) =>
        var row := RecordRowOf(index, n);
        var clash := exists r :: r in rs && RecordClash(r, row);
        if clash && policy == Ignore then Skipped
        else if clash && policy != Replace then Raised(Constraint)
        else
          var table := (if clash then WithoutRecordClashes(rs, row) else rs) + [row];
          if OrderGuard(table, index) then Inserted(table) else Raised(Guard)
  }

  // ------------------------------------------------------------------------ statements

  /** One SQL statement. The UPDATE and DELETE forms name the rows they select; SetCounter
      is a direct write to sqlite_sequence, which has no trigger. */
  datatype Statement =
    | InsertEvents(policy: Policy, newEvents: seq<NewEvent>)
    | InsertRecords(policy: Policy, newRecords: seq<NewRecord>)
    | UpdateEvents(eventIds: set<string>, to: EventRow)
    | DeleteEvents(eventIds: set<string>)
    | UpdateRecords(recordIds: set<string>, record: RecordRow)
    | DeleteRecords(recordIds: set<string>)
    | SetCounter(value: int)

  /** How a statement ended: completely, with its effects undone, stopped half-way with
      them kept (FAIL), or by rolling back its whole transaction. */
  datatype Ending = Complete | Undone | Stopped | RolledBack

  function EndingOf(policy: Policy, cause: Cause): Ending {
    if cause != Constraint then Undone
    else if policy == Fail then Stopped
    else if policy == Rollback then RolledBack
    else Undone
  }

  function InsertAllEvents(policy: Policy, es: seq<EventRow>, news: seq<NewEvent>): (seq<EventRow>, Ending)
    decreases news
  {
    if news == [] then (es, Complete)
    else
      match InsertEvent(policy, es, news[0])
      case Inserted(table) => InsertAllEvents(policy, table, news[1..])
      case Skipped => InsertAllEvents(policy, es, news[1..])
      case Raised(cause) => (es, EndingOf(policy, cause))
  }

  function InsertAllRecords(policy: Policy, rs: seq<RecordRow>, counter: int, news: seq<NewRecord>)
    : (seq<RecordRow>, int, Ending)
    decreases news
  {
    if news == [] then (rs, counter, Complete)
    else
      match InsertRecord(policy, rs, counter, news[0])
      case Inserted(table) =>
        var index := table[|table| - 1].appendIndex;
        InsertAllRecords(policy, table, if index > counter then index else counter, news[1..])
      case Skipped => InsertAllRecords(policy, rs, counter, news[1..])
      case Raised(cause) => (rs, counter, EndingOf(policy, cause))
  }

  function RunStatement(db: Db, stmt: Statement): (Db, Ending) {
    match stmt
    case InsertEvents(policy, news) =>
      var (table, ending) := InsertAllEvents(policy, db.events, news);
      (if ending.Complete? || ending.Stopped? then db.(events := table) else db, ending)
    case InsertRecords(policy, news) =>
      var (table, counter, ending) := InsertAllRecords(policy, db.records, db.counter, news);
      (if ending.Complete? then db.(records := table, counter := counter)
       else if ending.Stopped? then db.(records := table) else db, ending)
    case UpdateEvents(ids, _) => (db, if exists e :: e in db.events && e.eventId in ids then Undone else Complete)
    case DeleteEvents(ids) => (db, if exists e :: e in db.events && e.eventId in ids then Undone else Complete)
    case UpdateRecords(ids, _) => (db, if exists r :: r in db.records && r.recordId in ids then Undone else Complete)
    case DeleteRecords(ids) => (db, if exists r :: r in db.records && r.recordId in ids then Undone else Complete)
    case SetCounter(value) => (db.(counter := value), Complete)
  }

  /** Statements that succeed or fail one after the other, then COMMIT or not. */
  datatype Transaction = Transaction(statements: seq<Statement>, commits: bool)

  function RunStatements(db: Db, stmts: seq<Statement>): Option<Db>
    decreases stmts
  {
    if stmts == [] then Some(db)
    else
      var (next, ending) := RunStatement(db, stmts[0]);
      if ending.RolledBack? then None else RunStatements(next, stmts[1..])
  }

  function RunTransaction(db: Db, tx: Transaction): Db {
    var end := RunStatements(db, tx.statements);
    if tx.commits && end.Some? then end.value else db
  }

  function RunTransactions(db: Db, txs: seq<Transaction>): Db
    decreases txs
  {
    if txs == [] then db else RunTransactions(RunTransaction(db, txs[0]), txs[1..])
  }

  // ------------------------------------------------------------------------ invariants

  /** Event IDs and rowids are unique, and each run's sequences strictly increase in the
      order of acceptance. */
  ghost predicate EventsOk(es: seq<EventRow>) {
    && (forall i :: 0 <= i < |es| ==> 0 <= es[i].sequence <= MAX_INTEGER)
    && (forall i, j :: 0 <= i < j < |es| ==>
          && es[i].eventId != es[j].eventId && es[i].rowid != es[j].rowid
          && (es[i].runId == es[j].runId ==> es[i].sequence < es[j].sequence))
  }

  /** Record IDs are unique and append indices strictly increase. */
  ghost predicate RecordsOk(rs: seq<RecordRow>) {
    forall i, j :: 0 <= i < j < |rs| ==> rs[i].appendIndex < rs[j].appendIndex && rs[i].recordId != rs[j].recordId
  }

  ghost predicate DbOk(db: Db) { EventsOk(db.events) && RecordsOk(db.records) }

  lemma {:induction false} MaxSequenceSpec(es: seq<EventRow>, run: string)
    ensures var m := MaxSequence(es, run);
            && (m.None? ==> forall e :: e in es ==> e.runId != run)
            && (m.Some? ==> (exists e :: e in es && e.runId == run && e.sequence == m.value)
                            && forall e :: e in es && e.runId == run ==> e.sequence <= m.value)
  {
    if es != [] {
      MaxSequenceSpec(es[1..], run);
      assert es == [es[0]] + es[1..];
      assert es[0] in es && forall e :: e in es[1..] ==> e in es;
    }
  }

  /** What the append guard demands, without its MAX query. */
  lemma GuardMeans(es: seq<EventRow>, id: string, run: string, sequence: int)
    ensures EventGuard(es, id, run, sequence) <==>
            forall e :: e in es ==> e.eventId != id && (e.runId == run ==> e.sequence < sequence)
  {
    MaxSequenceSpec(es, run);
  }

  lemma {:induction false} MaxRowidSpec(es: seq<EventRow>)
    ensures MaxRowid(es).None? <==> es == []
    ensures MaxRowid(es).Some? ==> HasRowid(es, MaxRowid(es).value)
    ensures forall e :: e in es ==> MaxRowid(es).Some? && e.rowid <= MaxRowid(es).value
  {
    if es != [] {
      MaxRowidSpec(es[1..]);
      assert es == [es[0]] + es[1..];
      assert es[0] in es && forall e :: e in es[1..] ==> e in es;
    }
  }

  lemma {:induction false} MaxIndexSpec(rs: seq<RecordRow>)
    ensures MaxIndex(rs).None? <==> rs == []
    ensures forall r :: r in rs ==> MaxIndex(rs).Some? && r.appendIndex <= MaxIndex(rs).value
  {
    if rs != [] {
      MaxIndexSpec(rs[1..]);
      assert rs == [rs[0]] + rs[1..];
    }
  }

  lemma {:induction false} WithoutClashesKeeps(es: seq<EventRow>, row: EventRow)
    requires EventsOk(es)
    ensures var kept := WithoutClashes(es, row);
            && EventsOk(kept)
            && (forall e :: e in kept <==> e in es && !Clash(e, row))
            && |kept| <= |es|
            && ((exists e :: e in es && Clash(e, row)) ==> |kept| < |es|)
  {
    if es != [] {
      var rest := WithoutClashes(es[1..], row);
      WithoutClashesKeeps(es[1..], row);
      assert es == [es[0]] + es[1..];
      if !Clash(es[0], row) {
        var kept := [es[0]] + rest;
        forall j | 0 < j < |kept|
          ensures es[0].eventId != kept[j].eventId && es[0].rowid != kept[j].rowid
                  && (es[0].runId == kept[j].runId ==> es[0].sequence < kept[j].sequence)
        {
          assert kept[j] == rest[j - 1] && rest[j - 1] in es[1..];
        }
      }
    }
  }

  /** The row asks, under REPLACE, for a rowid that another event already has. */
  predicate Displaces(policy: Policy, es: seq<EventRow>, n: NewEvent) {
    policy == Replace && n.rowid.Some? && HasRowid(es, n.rowid.value)
  }

  lemma RowidIsTheOnlyClash(es: seq<EventRow>, n: NewEvent)
    requires EventGuard(es, n.eventId, n.runId, n.sequence) && PickRowid(es, n).Some?
    ensures var row := Row(PickRowid(es, n).value, n);
            && (forall e :: e in es ==> (Clash(e, row) <==> e.rowid == row.rowid))
            && (n.rowid.None? ==> forall e :: e in es ==> !Clash(e, row))
  {
    GuardMeans(es, n.eventId, n.runId, n.sequence);
    MaxRowidSpec(es);
  }

  lemma AppendKeepsEventsOk(kept: seq<EventRow>, row: EventRow)
    requires EventsOk(kept) && 0 <= row.sequence <= MAX_INTEGER
    requires forall e :: e in kept ==> !Clash(e, row) && (e.runId == row.runId ==> e.sequence < row.sequence)
    ensures EventsOk(kept + [row])
  {
    var t := kept + [row];
    forall i | 0 <= i < |kept|
      ensures t[i].eventId != row.eventId && t[i].rowid != row.rowid
              && (t[i].runId == row.runId ==> t[i].sequence < row.sequence)
    {
      assert t[i] in kept;
    }
  }

  lemma NotAPrefix(es: seq<EventRow>, kept: seq<EventRow>, row: EventRow)
    requires row !in es && |kept| < |es|
    ensures !(es <= kept + [row])
  {
    assert es[|es| - 1] in es;
    assert |kept| == |es| - 1 ==> (kept + [row])[|es| - 1] == row;
  }

  /** `row` may be added: it stands at the end of its run and shares at most a rowid. */
  ghost predicate Fits(es: seq<EventRow>, row: EventRow) {
    && 0 <= row.sequence <= MAX_INTEGER
    && (forall e :: e in es ==> (Clash(e, row) <==> e.rowid == row.rowid))
    && (forall e :: e in es ==> e.runId == row.runId ==> e.sequence < row.sequence)
  }

  /** `t` is `es` with `row` at the end, without the row that had its rowid. */
  ghost predicate Joined(es: seq<EventRow>, row: EventRow, t: seq<EventRow>) {
    && EventsOk(t) && |t| > 0 && t[|t| - 1] == row
    && forall e :: e in t[..|t| - 1] <==> e in es && e.rowid != row.rowid
  }

  lemma JoinsAtEnd(es: seq<EventRow>, row: EventRow)
    requires EventsOk(es) && Fits(es, row) && forall e :: e in es ==> !Clash(e, row)
    ensures Joined(es, row, es + [row]) && es <= es + [row]
  {
    AppendKeepsEventsOk(es, row);
    assert (es + [row])[..|es|] == es;
  }

  lemma ReplacesClash(es: seq<EventRow>, row: EventRow, clash: EventRow)
    requires EventsOk(es) && Fits(es, row) && clash in es && Clash(clash, row)
    ensures var t := WithoutClashes(es, row) + [row]; Joined(es, row, t) && !(es <= t)
  {
    var kept := WithoutClashes(es, row);
    WithoutClashesKeeps(es, row);
    AppendKeepsEventsOk(kept, row);
    assert (kept + [row])[..|kept|] == kept;
    NotAPrefix(es, kept, row);
  }

  /** What an accepted statement has passed, and what it leaves. */
  lemma InsertedMeans(policy: Policy, es: seq<EventRow>, n: NewEvent)
    requires InsertEvent(policy, es, n).Inserted?
    ensures EventGuard(es, n.eventId, n.runId, n.sequence) && n.sequence >= 0 && PickRowid(es, n).Some?
    ensures var row := Row(PickRowid(es, n).value, n); var t := InsertEvent(policy, es, n).table;
            if forall e :: e in es ==> !Clash(e, row) then t == es + [row]
            else policy == Replace && t == WithoutClashes(es, row) + [row]
  {
  }

  lemma InsertedFits(es: seq<EventRow>, n: NewEvent)
    requires EventGuard(es, n.eventId, n.runId, n.sequence) && 0 <= n.sequence <= MAX_INTEGER && PickRowid(es, n).Some?
    ensures Fits(es, Row(PickRowid(es, n).value, n))
  {
    GuardMeans(es, n.eventId, n.runId, n.sequence);
    RowidIsTheOnlyClash(es, n);
  }

  lemma ClashMeansRowidInUse(es: seq<EventRow>, n: NewEvent)
    requires EventGuard(es, n.eventId, n.runId, n.sequence) && PickRowid(es, n).Some?
    ensures (exists e :: e in es && Clash(e, Row(PickRowid(es, n).value, n))) <==> n.rowid.Some? && HasRowid(es, n.rowid.value)
  {
    RowidIsTheOnlyClash(es, n);
  }

  /** An accepted event joins at the end, keeps identities unique and its run's order
      strict; and it leaves every earlier event alone if and only if it does not name, under
      REPLACE, a rowid in use: no trigger guards run_events' implicit rowid. */
  lemma InsertEventKeeps(policy: Policy, es: seq<EventRow>, n: NewEvent)
    requires EventsOk(es) && InsertEvent(policy, es, n).Inserted?
    ensures PickRowid(es, n).Some?
    ensures Joined(es, Row(PickRowid(es, n).value, n), InsertEvent(policy, es, n).table)
    ensures es <= InsertEvent(policy, es, n).table <==> !Displaces(policy, es, n)
  {
    InsertedMeans(policy, es, n);
    InsertedFits(es, n);
    ClashMeansRowidInUse(es, n);
    var row := Row(PickRowid(es, n).value, n);
    if forall e :: e in es ==> !Clash(e, row) {
      JoinsAtEnd(es, row);
    } else {
      var clash :| clash in es && Clash(clash, row);
      ReplacesClash(es, row, clash);
    }
  }

  /** A record is only ever appended, whatever the policy: REPLACE has nothing to replace. */
  lemma InsertRecordKeeps(policy: Policy, rs: seq<RecordRow>, counter: int, n: NewRecord)
    requires RecordsOk(rs) && InsertRecord(policy, rs, counter, n).Inserted?
    ensures var t := InsertRecord(policy, rs, counter, n).table;
            && RecordsOk(t) && |t| == |rs| + 1 && t[..|rs|] == rs
            && t[|rs|] == RecordRowOf(t[|rs|].appendIndex, n)
            && (n.index.None? ==> t[|rs|].appendIndex > counter)
  {
    var index := (if n.index.Some? then n.index else NextIndex(rs, counter)).value;
    var row := RecordRowOf(index, n);
    var t := InsertRecord(policy, rs, counter, n).table;
    MaxIndexSpec(rs);
    assert forall r :: r in rs ==> !RecordClash(r, row);
    assert t == rs + [row];
    forall i | 0 <= i < |rs| ensures t[i].appendIndex < index && t[i].recordId != row.recordId {
      assert t[i] in rs && t[i] in t;
    }
  }

  // -------------------------------------------------------------------- whole histories

  /** No row of the statement displaces an event when its turn comes. */
  predicate Undisplacing(policy: Policy, es: seq<EventRow>, news: seq<NewEvent>)
    decreases news
  {
    news == [] ||
    match InsertEvent(policy, es, news[0])
    case Inserted(table) => !Displaces(policy, es, news[0]) && Undisplacing(policy, table, news[1..])
    case Skipped => Undisplacing(policy, es, news[1..])
    case Raised(_) => true
  }

  lemma {:induction false} InsertAllEventsKeeps(policy: Policy, es: seq<EventRow>, news: seq<NewEvent>)
    requires EventsOk(es)
    ensures var t := InsertAllEvents(policy, es, news).0;
            EventsOk(t) && (Undisplacing(policy, es, news) ==> es <= t)
    decreases news
  {
    if news != [] {
      var r := InsertEvent(policy, es, news[0]);
      if r.Inserted? {
        InsertEventKeeps(policy, es, news[0]);
        InsertAllEventsKeeps(policy, r.table, news[1..]);
      } else if r.Skipped? {
        InsertAllEventsKeeps(policy, es, news[1..]);
      }
    }
  }

  lemma {:induction false} InsertAllRecordsKeeps(policy: Policy, rs: seq<RecordRow>, counter: int, news: seq<NewRecord>)
    requires RecordsOk(rs)
    ensures var t := InsertAllRecords(policy, rs, counter, news).0;
            RecordsOk(t) && rs <= t
    decreases news
  {
    if news != [] {
      var r := InsertRecord(policy, rs, counter, news[0]);
      if r.Inserted? {
        InsertRecordKeeps(policy, rs, counter, news[0]);
        var index := r.table[|r.table| - 1].appendIndex;
        InsertAllRecordsKeeps(policy, r.table, if index > counter then index else counter, news[1..]);
      } else if r.Skipped? {
        InsertAllRecordsKeeps(policy, rs, counter, news[1..]);
      }
    }
  }

  /** The statement's rows stay when it ends. */
  predicate RowsStay(db: Db, stmt: Statement) {
    stmt.InsertEvents? &&
    var ending := InsertAllEvents(stmt.policy, db.events, stmt.newEvents).1; ending.Complete? || ending.Stopped?
  }

  predicate StatementUndisplacing(db: Db, stmt: Statement) {
    RowsStay(db, stmt) ==> Undisplacing(stmt.policy, db.events, stmt.newEvents)
  }

  lemma StatementKeeps(db: Db, stmt: Statement)
    requires DbOk(db)
    ensures var db' := RunStatement(db, stmt).0;
            DbOk(db') && db.records <= db'.records
            && (StatementUndisplacing(db, stmt) ==> db.events <= db'.events)
  {
    match stmt
    case InsertEvents(policy, news) => InsertAllEventsKeeps(policy, db.events, news);
    case InsertRecords(policy, news) => InsertAllRecordsKeeps(policy, db.records, db.counter, news);
    case _ =>
  }

  predicate StatementsUndisplacing(db: Db, stmts: seq<Statement>)
    decreases stmts
  {
    stmts == [] ||
    (StatementUndisplacing(db, stmts[0]) && StatementsUndisplacing(RunStatement(db, stmts[0]).0, stmts[1..]))
  }

  lemma {:induction false} StatementsKeep(db: Db, stmts: seq<Statement>)
    requires DbOk(db)
    ensures var end := RunStatements(db, stmts);
            end.Some? ==> DbOk(end.value) && db.records <= end.value.records
                          && (StatementsUndisplacing(db, stmts) ==> db.events <= end.value.events)
    decreases stmts
  {
    if stmts != [] {
      StatementKeeps(db, stmts[0]);
      StatementsKeep(RunStatement(db, stmts[0]).0, stmts[1..]);
    }
  }

  predicate Commits(db: Db, tx: Transaction) { tx.commits && RunStatements(db, tx.statements).Some? }

  /** No row that a committed transaction leaves behind displaces an event when its turn comes. */
  predicate HistoryUndisplacing(db: Db, txs: seq<Transaction>)
    decreases txs
  {
    txs == [] ||
    ((Commits(db, txs[0]) ==> StatementsUndisplacing(db, txs[0].statements)) && HistoryUndisplacing(RunTransaction(db, txs[0]), txs[1..]))
  }

  /** Over any history of transactions made of INSERT (under every conflict policy, many
      rows at a time), UPDATE, DELETE and sqlite_sequence writes: identities stay unique,
      every run's sequences and all append indices stay strictly increasing in acceptance
      order, and experiment records are never lost, changed or reordered. Events are not
      either, unless some statement displaces one through its rowid. */
  lemma {:induction false} HistoryKeeps(db: Db, txs: seq<Transaction>)
    requires DbOk(db)
    ensures var db' := RunTransactions(db, txs);
            && DbOk(db') && db.records <= db'.records
            && (HistoryUndisplacing(db, txs) ==> db.events <= db'.events)
    decreases txs
  {
    if txs != [] {
      StatementsKeep(db, txs[0].statements);
      HistoryKeeps(RunTransaction(db, txs[0]), txs[1..]);
    }
  }

  // ------------------------------------------------------------- what every row leaves

  /** The event table after each inserted row of a statement. */
  function RowTables(policy: Policy, es: seq<EventRow>, news: seq<NewEvent>): seq<seq<EventRow>>
    decreases news
  {
    if news == [] then []
    else
      match InsertEvent(policy, es, news[0])
      case Inserted(table) => [table] + RowTables(policy, table, news[1..])
      case Skipped => RowTables(policy, es, news[1..])
      case Raised(_) => []
  }

  function StatementTables(db: Db, stmt: Statement): seq<seq<EventRow>> {
    if RowsStay(db, stmt) then RowTables(stmt.policy, db.events, stmt.newEvents) else []
  }

  function StatementsTables(db: Db, stmts: seq<Statement>): seq<seq<EventRow>>
    decreases stmts
  {
    if stmts == [] then [] else StatementTables(db, stmts[0]) + StatementsTables(RunStatement(db, stmts[0]).0, stmts[1..])
  }

  /** The event table after each row that a history commits. */
  function HistoryTables(db: Db, txs: seq<Transaction>): seq<seq<EventRow>>
    decreases txs
  {
    if txs == [] then []
    else (if Commits(db, txs[0]) then StatementsTables(db, txs[0].statements) else []) + HistoryTables(RunTransaction(db, txs[0]), txs[1..])
  }

  /** Each table extends the one before it. */
  predicate Growing(es: seq<EventRow>, tables: seq<seq<EventRow>>)
    decreases tables
  {
    tables == [] || (es <= tables[0] && Growing(tables[0], tables[1..]))
  }

  function LastTable(es: seq<EventRow>, tables: seq<seq<EventRow>>): seq<EventRow> {
    if tables == [] then es else tables[|tables| - 1]
  }

  lemma {:induction false} GrowingConcat(es: seq<EventRow>, x: seq<seq<EventRow>>, y: seq<seq<EventRow>>)
    ensures Growing(es, x + y) <==> Growing(es, x) && Growing(LastTable(es, x), y)
    ensures LastTable(es, x + y) == LastTable(LastTable(es, x), y)
    decreases x
  {
    if x == [] {
      assert x + y == y;
    } else {
      GrowingConcat(x[0], x[1..], y);
      assert (x + y)[1..] == x[1..] + y;
      assert LastTable(x[0], x[1..]) == LastTable(es, x);
    }
  }

  lemma {:induction false} RowsGrowIff(policy: Policy, es: seq<EventRow>, news: seq<NewEvent>)
    requires EventsOk(es)
    ensures Growing(es, RowTables(policy, es, news)) <==> Undisplacing(policy, es, news)
    ensures LastTable(es, RowTables(policy, es, news)) == InsertAllEvents(policy, es, news).0
    decreases news
  {
    if news != [] {
      var r := InsertEvent(policy, es, news[0]);
      if r.Inserted? {
        InsertEventKeeps(policy, es, news[0]);
        RowsGrowIff(policy, r.table, news[1..]);
        GrowingConcat(es, [r.table], RowTables(policy, r.table, news[1..]));
      } else if r.Skipped? {
        RowsGrowIff(policy, es, news[1..]);
      }
    }
  }

  lemma StatementGrowsIff(db: Db, stmt: Statement)
    requires DbOk(db)
    ensures Growing(db.events, StatementTables(db, stmt)) <==> StatementUndisplacing(db, stmt)
    ensures LastTable(db.events, StatementTables(db, stmt)) == RunStatement(db, stmt).0.events
  {
    if stmt.InsertEvents? { RowsGrowIff(stmt.policy, db.events, stmt.newEvents); }
  }

  lemma {:induction false} StatementsGrowIff(db: Db, stmts: seq<Statement>)
    requires DbOk(db) && RunStatements(db, stmts).Some?
    ensures Growing(db.events, StatementsTables(db, stmts)) <==> StatementsUndisplacing(db, stmts)
    ensures LastTable(db.events, StatementsTables(db, stmts)) == RunStatements(db, stmts).value.events
    decreases stmts
  {
    if stmts != [] {
      var next := RunStatement(db, stmts[0]).0;
      StatementKeeps(db, stmts[0]);
      StatementGrowsIff(db, stmts[0]);
      StatementsGrowIff(next, stmts[1..]);
      GrowingConcat(db.events, StatementTables(db, stmts[0]), StatementsTables(next, stmts[1..]));
    }
  }

  lemma TransactionGrowsIff(db: Db, tx: Transaction)
    requires DbOk(db)
    ensures var tables := if Commits(db, tx) then StatementsTables(db, tx.statements) else [];
            && (Growing(db.events, tables) <==> (Commits(db, tx) ==> StatementsUndisplacing(db, tx.statements)))
            && LastTable(db.events, tables) == RunTransaction(db, tx).events
    ensures DbOk(RunTransaction(db, tx))
  {
    StatementsKeep(db, tx.statements);
    if Commits(db, tx) { StatementsGrowIff(db, tx.statements); }
  }

  /** Row by row, a history never loses or reorders an event exactly when no row that it
      commits displaces one; the last of these tables is the one it ends with. */
  lemma {:induction false} HistoryGrowsIff(db: Db, txs: seq<Transaction>)
    requires DbOk(db)
    ensures Growing(db.events, HistoryTables(db, txs)) <==> HistoryUndisplacing(db, txs)
    ensures LastTable(db.events, HistoryTables(db, txs)) == RunTransactions(db, txs).events
    decreases txs
  {
    if txs != [] {
      var next := RunTransaction(db, txs[0]);
      var tables := if Commits(db, txs[0]) then StatementsTables(db, txs[0].statements) else [];
      TransactionGrowsIff(db, txs[0]);
      HistoryGrowsIff(next, txs[1..]);
      GrowingConcat(db.events, tables, HistoryTables(next, txs[1..]));
    }
  }

  /** The loss is real: an INSERT OR REPLACE of a new event that reuses the rowid of another
      run's only event removes that event, and no trigger objects. */
  lemma ReusedRowidLosesAnEvent()
    ensures var first := EventRow(1, "event_a", "run_a", 0, [], "");
            var db := Db([first], [], 0);
            var n := NewEvent(Some(1), 1, "event_b", "run_b", 0, [], "");
            && DbOk(db)
            && RunTransaction(db, Transaction([InsertEvents(Replace, [n])], true))
               == Db([EventRow(1, "event_b", "run_b", 0, [], "")], [], 0)
  {
    var first := EventRow(1, "event_a", "run_a", 0, [], "");
    var n := NewEvent(Some(1), 1, "event_b", "run_b", 0, [], "");
    var row := EventRow(1, "event_b", "run_b", 0, [], "");
    GuardMeans([first], "event_b", "run_b", 0);
    assert EventGuard([first], "event_b", "run_b", 0);
    assert first in [first] && Clash(first, row);
    assert WithoutClashes([first], row) == [];
    assert WithoutClashes([first], row) + [row] == [row];
    assert PickRowid([first], n) == Some(1) && Row(1, n) == row;
    assert InsertEvent(Replace, [first], n) == Inserted([row]);
    assert InsertAllEvents(Replace, [row], []) == ([row], Complete);
    assert InsertAllEvents(Replace, [first], [n]) == ([row], Complete);
    var db := Db([first], [], 0);
    var db' := Db([row], [], 0);
    assert RunStatement(db, InsertEvents(Replace, [n])) == (db', Complete);
    assert RunStatements(db', []) == Some(db');
    assert RunStatements(db, [InsertEvents(Replace, [n])]) == Some(db');
  }
}
