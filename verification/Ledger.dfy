/** `ExperimentLedger` (src/nova_rtl/artifacts/ledger.py): the append methods with their own
    checks on top of the guarded tables, and the validated sorted reads. */
module Ledger {
  import opened Prelude
  import opened Tables

  /** A `RunEvent`; `artifact` is the hash of its payload, `body` everything else. */
  datatype Event = Event(eventId: string, runId: string, sequence: nat, artifact: string, body: string)

  /** An `ExperimentRecord`. */
  datatype Record = Record(recordId: string, runId: string, body: string)

  /** Canonical JSON and SHA-256, which the program takes from libraries. */
  datatype Codec<!T> = Codec(encode: T -> Bytes, parse: Bytes -> Option<T>, hash: Bytes -> string)

  datatype LedgerError =
    | ReadOnly | DuplicateId | DuplicateSequence | StaleSequence | Rejected | DatabaseFailed | Overflow | Integrity

  predicate Hex64(s: string) {
    |s| == 64 && forall c :: c in s ==> '0' <= c <= '9' || 'a' <= c <= 'f'
  }

  /** What the libraries promise: parsing inverts canonical printing, hashes are hex. */
  ghost predicate Sound<T(!new)>(c: Codec<T>) {
    && (forall v: T :: c.parse(c.encode(v)) == Some(v))
    && (forall b: Bytes :: Hex64(c.hash(b)))
  }

  // -------------------------------------------------------------------------- decoding

  function Decode<T(==)>(c: Codec<T>, payload: Bytes, digest: string): Result<T, LedgerError> {
    if !Hex64(digest) then Err(Integrity)
    else if c.hash(payload) != digest then Err(Integrity)
    else
      match c.parse(payload)
      case None => Err(Integrity)
      case Some(v) => if c.encode(v) != payload then Err(Integrity) else Ok(v)
  }

  /** Decoding accepts exactly the canonical bytes of a value under their own hash. */
  lemma DecodeInvertsEncode<T(!new)>(c: Codec<T>, payload: Bytes, digest: string, v: T)
    requires Sound(c)
    ensures Decode(c, payload, digest) == Ok(v) <==> payload == c.encode(v) && digest == c.hash(payload)
  {
    assert c.parse(c.encode(v)) == Some(v);
  }

  function ReadEvent(c: Codec<Event>, row: EventRow): Result<Event, LedgerError> {
    match Decode(c, row.payload, row.digest)
    case Err(e) => Err(e)
    case Ok(event) =>
      if event.eventId != row.eventId || event.runId != row.runId || event.sequence != row.sequence then Err(Integrity)
      else Ok(event)
  }

  function ReadRecord(c: Codec<Record>, row: RecordRow): Result<Record, LedgerError> {
    match Decode(c, row.payload, row.digest)
    case Err(e) => Err(e)
    case Ok(record) =>
      if record.recordId != row.recordId || record.runId != row.runId then Err(Integrity) else Ok(record)
  }

  /** The row that `append_event` stores for this event. */
  function EventRowOf(c: Codec<Event>, e: Event, rowid: int): EventRow {
    EventRow(rowid, e.eventId, e.runId, e.sequence, c.encode(e), c.hash(c.encode(e)))
  }

  function StoredRecord(c: Codec<Record>, r: Record, index: int): RecordRow {
    RecordRow(index, r.recordId, r.runId, c.encode(r), c.hash(c.encode(r)))
  }

  lemma ReadInvertsStore(c: Codec<Event>, row: EventRow, e: Event)
    requires Sound(c)
    ensures ReadEvent(c, row) == Ok(e) <==> row == EventRowOf(c, e, row.rowid)
  {
    DecodeInvertsEncode(c, row.payload, row.digest, e);
  }

  lemma ReadRecordInvertsStore(c: Codec<Record>, row: RecordRow, r: Record)
    requires Sound(c)
    ensures ReadRecord(c, row) == Ok(r) <==> row == StoredRecord(c, r, row.appendIndex)
  {
    DecodeInvertsEncode(c, row.payload, row.digest, r);
  }

  // --------------------------------------------------------------------- sorted reading

  function RowsOf(es: seq<EventRow>, run: string): seq<EventRow> {
    if es == [] then []
    else (if es[0].runId == run then [es[0]] else []) + RowsOf(es[1..], run)
  }

  function RecordRowsOf(rs: seq<RecordRow>, run: string): seq<RecordRow> {
    if rs == [] then []
    else (if rs[0].runId == run then [rs[0]] else []) + RecordRowsOf(rs[1..], run)
  }

  predicate SequenceLe(a: EventRow, b: EventRow) { a.sequence <= b.sequence }

  predicate IndexLe(a: RecordRow, b: RecordRow) { a.appendIndex <= b.appendIndex }

  /** SELECT ... WHERE run_id = ? ORDER BY sequence ASC. */
  function SelectEvents(es: seq<EventRow>, run: string): seq<EventRow> { SortBy(RowsOf(es, run), SequenceLe) }

  function SelectRecords(rs: seq<RecordRow>, run: string): seq<RecordRow> { SortBy(RecordRowsOf(rs, run), IndexLe) }

  lemma {:induction false} RowsOfKeepsOrder(es: seq<EventRow>, run: string)
    requires EventsOk(es)
    ensures var rows := RowsOf(es, run);
            && (forall r :: r in rows <==> r in es && r.runId == run)
            && (forall i, j :: 0 <= i < j < |rows| ==> rows[i].sequence < rows[j].sequence)
  {
    if es != [] {
      var rest := RowsOf(es[1..], run);
      RowsOfKeepsOrder(es[1..], run);
      assert es == [es[0]] + es[1..];
      if es[0].runId == run {
        forall j | 0 <= j < |rest| ensures es[0].sequence < rest[j].sequence { assert rest[j] in es[1..]; }
      }
    }
  }

  lemma {:induction false} RecordRowsOfKeepsOrder(rs: seq<RecordRow>, run: string)
    requires RecordsOk(rs)
    ensures var rows := RecordRowsOf(rs, run);
            && (forall r :: r in rows <==> r in rs && r.runId == run)
            && (forall i, j :: 0 <= i < j < |rows| ==> rows[i].appendIndex < rows[j].appendIndex)
  {
    if rs != [] {
      var rest := RecordRowsOf(rs[1..], run);
      RecordRowsOfKeepsOrder(rs[1..], run);
      assert rs == [rs[0]] + rs[1..];
      if rs[0].runId == run {
        forall j | 0 <= j < |rest| ensures rs[0].appendIndex < rest[j].appendIndex { assert rest[j] in rs[1..]; }
      }
    }
  }

  /** On every reachable table the sorted reads list a run's rows in the order in which
      they were accepted. */
  lemma SortedReadIsAcceptanceOrder(db: Db, run: string)
    requires DbOk(db)
    ensures SelectEvents(db.events, run) == RowsOf(db.events, run)
    ensures SelectRecords(db.records, run) == RecordRowsOf(db.records, run)
  {
    RowsOfKeepsOrder(db.events, run);
    RecordRowsOfKeepsOrder(db.records, run);
    SortByFixpoint(RowsOf(db.events, run), SequenceLe);
    SortByFixpoint(RecordRowsOf(db.records, run), IndexLe);
  }

  /** All events read from these rows, or the first failure. */
  function ReadAll(c: Codec<Event>, rows: seq<EventRow>): Result<seq<Event>, LedgerError> {
    if rows == [] then Ok([])
    else
      match ReadEvent(c, rows[0])
      case Err(e) => Err(e)
      case Ok(event) =>
        match ReadAll(c, rows[1..])
        case Err(e) => Err(e)
        case Ok(rest) => Ok([event] + rest)
  }

  function EventsOf(evs: seq<Event>, run: string): seq<Event> {
    if evs == [] then []
    else (if evs[0].runId == run then [evs[0]] else []) + EventsOf(evs[1..], run)
  }

  /** These rows are what appending these events left behind. */
  ghost predicate Stores(c: Codec<Event>, rows: seq<EventRow>, evs: seq<Event>) {
    |rows| == |evs| && forall i :: 0 <= i < |rows| ==> rows[i] == EventRowOf(c, evs[i], rows[i].rowid)
  }

  lemma {:induction false} StoredRowsRead(c: Codec<Event>, rows: seq<EventRow>, evs: seq<Event>, run: string)
    requires Sound(c) && Stores(c, rows, evs)
    ensures ReadAll(c, RowsOf(rows, run)) == Ok(EventsOf(evs, run))
  {
    if rows != [] {
      StoredRowsRead(c, rows[1..], evs[1..], run);
      ReadInvertsStore(c, rows[0], evs[0]);
      if rows[0].runId == run {
        assert RowsOf(rows, run)[0] == rows[0] && RowsOf(rows, run)[1..] == RowsOf(rows[1..], run);
      } else {
        assert RowsOf(rows, run) == RowsOf(rows[1..], run);
        assert EventsOf(evs, run) == EventsOf(evs[1..], run);
      }
    }
  }

  /** Whatever was appended to a well-formed ledger is what `iter_events` returns for a run:
      the same events, in the order of their acceptance. */
  lemma ReadReturnsAppended(c: Codec<Event>, db: Db, evs: seq<Event>, run: string)
    requires Sound(c) && DbOk(db) && Stores(c, db.events, evs)
    ensures ReadAll(c, SelectEvents(db.events, run)) == Ok(EventsOf(evs, run))
  {
    SortedReadIsAcceptanceOrder(db, run);
    StoredRowsRead(c, db.events, evs, run);
  }

  lemma {:induction false} RowsOfConcat(a: seq<EventRow>, b: seq<EventRow>, run: string)
    ensures RowsOf(a + b, run) == RowsOf(a, run) + RowsOf(b, run)
  {
    if a == [] {
      assert a + b == b;
    } else {
      assert (a + b)[1..] == a[1..] + b;
      RowsOfConcat(a[1..], b, run);
    }
  }

  lemma {:induction false} ReadAllConcat(c: Codec<Event>, a: seq<EventRow>, b: seq<EventRow>)
    ensures ReadAll(c, a + b).Ok? <==> ReadAll(c, a).Ok? && ReadAll(c, b).Ok?
    ensures ReadAll(c, a + b).Ok? ==> ReadAll(c, a + b).value == ReadAll(c, a).value + ReadAll(c, b).value
  {
    if a == [] {
      assert a + b == b;
    } else {
      assert (a + b)[1..] == a[1..] + b;
      ReadAllConcat(c, a[1..], b);
    }
  }

  /** A later read of a run, whatever SQL ran in between without displacing an event,
      returns the earlier read's events first - or fails. */
  lemma LaterReadsExtend(c: Codec<Event>, db: Db, txs: seq<Transaction>, run: string)
    requires DbOk(db) && HistoryUndisplacing(db, txs)
    ensures var now := ReadAll(c, SelectEvents(db.events, run));
            var later := ReadAll(c, SelectEvents(RunTransactions(db, txs).events, run));
            later.Ok? ==> now.Ok? && now.value <= later.value
  {
    var db' := RunTransactions(db, txs);
    HistoryKeeps(db, txs);
    SortedReadIsAcceptanceOrder(db, run);
    SortedReadIsAcceptanceOrder(db', run);
    var added := db'.events[|db.events|..];
    assert db'.events == db.events + added;
    RowsOfConcat(db.events, added, run);
    ReadAllConcat(c, RowsOf(db.events, run), RowsOf(added, run));
  }

  /** The row is what appending some event would store. */
  ghost predicate Authentic(c: Codec<Event>, row: EventRow) {
    exists e :: row == EventRowOf(c, e, row.rowid)
  }

  lemma ReadsIffAuthentic(c: Codec<Event>, row: EventRow)
    requires Sound(c)
    ensures ReadEvent(c, row).Ok? <==> Authentic(c, row)
    ensures ReadEvent(c, row).Ok? ==> row == EventRowOf(c, ReadEvent(c, row).value, row.rowid)
    ensures ReadEvent(c, row).Err? ==> ReadEvent(c, row).error == Integrity
  {
    if ReadEvent(c, row).Ok? { ReadInvertsStore(c, row, ReadEvent(c, row).value); }
    forall e | row == EventRowOf(c, e, row.rowid) ensures ReadEvent(c, row).Ok? { ReadInvertsStore(c, row, e); }
  }

  /** Reading fails exactly when some row was not stored by an append. */
  lemma {:induction false} ReadAllFailsOnForeignRows(c: Codec<Event>, rows: seq<EventRow>)
    requires Sound(c)
    ensures ReadAll(c, rows).Ok? <==> forall row :: row in rows ==> Authentic(c, row)
    ensures ReadAll(c, rows).Ok? ==> Stores(c, rows, ReadAll(c, rows).value)
    ensures ReadAll(c, rows).Err? ==> ReadAll(c, rows).error == Integrity
  {
    if rows != [] {
      ReadAllFailsOnForeignRows(c, rows[1..]);
      ReadsIffAuthentic(c, rows[0]);
      assert rows == [rows[0]] + rows[1..];
      if ReadAll(c, rows).Ok? {
        var evs := ReadAll(c, rows).value;
        assert evs[1..] == ReadAll(c, rows[1..]).value;
      }
    }
  }

  // ------------------------------------------------------------------------- run list

  /** SELECT DISTINCT run_id ... ORDER BY run_id ASC. */
  function RunIds(es: seq<EventRow>): seq<string> { SortedOf(set e | e in es :: e.runId) }

  /** The listed runs are the runs that have events, each once and in order. */
  lemma RunIdsSpec(es: seq<EventRow>)
    ensures var ids := RunIds(es);
            && Distinct(ids) && Sorted(ids, StrLe)
            && (forall r :: r in ids <==> exists e :: e in es && e.runId == r)
  {
    var runs := set e | e in es :: e.runId;
    SortedOfSpec(runs);
    assert forall r :: r in RunIds(es) <==> r in SetOf(RunIds(es));
  }

  // ------------------------------------------------------------------------ the ledger

  predicate EventTaken(es: seq<EventRow>, e: Event) { exists r :: r in es && r.eventId == e.eventId }

  /** The events of this run that the new one would not come after. */
  predicate Late(es: seq<EventRow>, e: Event) {
    exists r :: r in es && r.runId == e.runId && r.sequence >= e.sequence
  }

  lemma AcceptedByTriggers(c: Codec<Event>, es: seq<EventRow>, e: Event, spare: Integer)
    requires EventGuard(es, e.eventId, e.runId, e.sequence) && e.sequence <= MAX_INTEGER
    ensures var n := NewEvent(None, spare, e.eventId, e.runId, e.sequence, c.encode(e), c.hash(c.encode(e)));
            InsertEvent(Abort, es, n)
              == (if PickRowid(es, n).None? then Raised(Full) else Inserted(es + [EventRowOf(c, e, PickRowid(es, n).value)]))
            && (EventsOk(es) && PickRowid(es, n).Some? ==> EventsOk(es + [EventRowOf(c, e, PickRowid(es, n).value)]))
  {
    var n := NewEvent(None, spare, e.eventId, e.runId, e.sequence, c.encode(e), c.hash(c.encode(e)));
    if PickRowid(es, n).Some? {
      RowidIsTheOnlyClash(es, n);
      if EventsOk(es) { InsertEventKeeps(Abort, es, n); }
    }
  }

  lemma {:induction false} StoresReadBack(c: Codec<Event>, rows: seq<EventRow>, evs: seq<Event>)
    requires Sound(c) && Stores(c, rows, evs)
    ensures ReadAll(c, rows) == Ok(evs)
  {
    if rows != [] {
      ReadInvertsStore(c, rows[0], evs[0]);
      StoresReadBack(c, rows[1..], evs[1..]);
      assert evs == [evs[0]] + evs[1..];
    }
  }

  lemma AutomaticIndex(rs: seq<RecordRow>, counter: int, n: NewRecord)
    requires n.index.None? && !HasRecord(rs, n.recordId)
    ensures InsertRecord(Abort, rs, counter, n)
              == if HasIndex(rs, n.shown) then Raised(Guard)
                 else if NextIndex(rs, counter).None? then Raised(Full)
                 else Inserted(rs + [RecordRowOf(NextIndex(rs, counter).value, n)])
    ensures NextIndex(rs, counter).Some? ==> counter < NextIndex(rs, counter).value
                                             && forall x :: x in rs ==> x.appendIndex < NextIndex(rs, counter).value
  {
    MaxIndexSpec(rs);
    if NextIndex(rs, counter).Some? {
      var row := RecordRowOf(NextIndex(rs, counter).value, n);
      assert forall x :: x in rs ==> !RecordClash(x, row);
    }
  }

  /** No rowid exceeds the number of rows: true of a ledger only ever appended to. */
  ghost predicate Dense(es: seq<EventRow>) { forall e :: e in es ==> e.rowid <= |es| }

  /** The largest rowid is taken, and so is the one SQLite tries instead. */
  predicate RowidsFull(es: seq<EventRow>, spare: int) { (exists x :: x in es && x.rowid >= MAX_INTEGER) && HasRowid(es, spare) }

  lemma NoRowidIff(es: seq<EventRow>, n: NewEvent)
    requires n.rowid.None?
    ensures PickRowid(es, n).None? <==> RowidsFull(es, n.spare)
  {
    MaxRowidSpec(es);
  }

  class ExperimentLedger {
    const eventCodec: Codec<Event>
    const recordCodec: Codec<Record>
    const readOnly: bool
    var db: Db

    constructor (eventCodec: Codec<Event>, recordCodec: Codec<Record>, readOnly: bool, db: Db)
      ensures this.eventCodec == eventCodec && this.recordCodec == recordCodec
      ensures this.readOnly == readOnly && this.db == db
    {
      this.eventCodec, this.recordCodec, this.readOnly, this.db := eventCodec, recordCodec, readOnly, db;
    }

    /** `append_event`. Its own checks refuse exactly what the trigger would, so the
        trigger's refusal is never seen; a refused append changes nothing. */
    method AppendEvent(e: Event, spare: Integer) returns (r: Result<(), LedgerError>)
      modifies this
      ensures r.Err? ==> db == old(db)
      ensures r.Ok? ==> exists rowid ::
                db == old(db).(events := old(db.events) + [EventRowOf(eventCodec, e, rowid)])
      ensures r == Err(ReadOnly) <==> readOnly
      ensures r == Err(DuplicateId) <==> !readOnly && EventTaken(old(db.events), e)
      ensures r == Err(DuplicateSequence) || r == Err(StaleSequence) <==>
                !readOnly && !EventTaken(old(db.events), e) && Late(old(db.events), e)
      ensures r == Err(DuplicateSequence) ==> exists x :: x in old(db.events) && x.runId == e.runId && x.sequence == e.sequence
      ensures r == Err(StaleSequence) ==> exists x :: x in old(db.events) && x.runId == e.runId && x.sequence > e.sequence
      ensures var fits := !readOnly && !EventTaken(old(db.events), e) && !Late(old(db.events), e);
              && (r == Err(Overflow) <==> fits && e.sequence > MAX_INTEGER)
              && (r == Err(DatabaseFailed) <==> fits && e.sequence <= MAX_INTEGER && RowidsFull(old(db.events), spare))
              && (r.Ok? <==> fits && e.sequence <= MAX_INTEGER && !RowidsFull(old(db.events), spare))
      ensures EventsOk(old(db.events)) ==> EventsOk(db.events)
      ensures Dense(old(db.events)) ==> Dense(db.events)
    {
      if readOnly { return Err(ReadOnly); }
      var payload := eventCodec.encode(e);
      var digest := eventCodec.hash(payload);
      GuardMeans(db.events, e.eventId, e.runId, e.sequence);
      if HasEvent(db.events, e.eventId) { return Err(DuplicateId); }
      var last := MaxSequence(db.events, e.runId);
      MaxSequenceSpec(db.events, e.runId);
      if last.Some? && e.sequence <= last.value {
        if e.sequence == last.value { return Err(DuplicateSequence); }
        return Err(StaleSequence);
      }
      if e.sequence > MAX_INTEGER { return Err(Overflow); }
      var n := NewEvent(None, spare, e.eventId, e.runId, e.sequence, payload, digest);
      AcceptedByTriggers(eventCodec, db.events, e, spare);
      MaxRowidSpec(db.events);
      NoRowidIff(db.events, n);
      match InsertEvent(Abort, db.events, n)
      case Inserted(table) =>
        db := db.(events := table);
        r := Ok(());
      case Skipped => r := Ok(());
      case Raised(cause) => r := Err(if cause == Full then DatabaseFailed else Rejected);
    }

    /** `append_record`. */
    method AppendRecord(record: Record, shown: Integer) returns (r: Result<(), LedgerError>)
      modifies this
      ensures r.Err? ==> db == old(db)
      ensures r.Ok? ==> exists index ::
                && db.events == old(db.events)
                && db.records == old(db.records) + [StoredRecord(recordCodec, record, index)]
                && (forall x :: x in old(db.records) ==> x.appendIndex < index) && old(db.counter) < index
      ensures r == Err(ReadOnly) <==> readOnly
      ensures r == Err(DuplicateId) <==> !readOnly && HasRecord(old(db.records), record.recordId)
      ensures r == Err(Rejected) <==> !readOnly && !HasRecord(old(db.records), record.recordId) && HasIndex(old(db.records), shown)
      ensures var fits := !readOnly && !HasRecord(old(db.records), record.recordId) && !HasIndex(old(db.records), shown);
              && (r == Err(DatabaseFailed) <==> fits && NextIndex(old(db.records), old(db.counter)).None?)
              && (r.Ok? <==> fits && NextIndex(old(db.records), old(db.counter)).Some?)
      ensures RecordsOk(old(db.records)) ==> RecordsOk(db.records)
    {
      if readOnly { return Err(ReadOnly); }
      var payload := recordCodec.encode(record);
      var digest := recordCodec.hash(payload);
      if HasRecord(db.records, record.recordId) { return Err(DuplicateId); }
      var n := NewRecord(None, shown, record.recordId, record.runId, payload, digest);
      AutomaticIndex(db.records, db.counter, n);
      match InsertRecord(Abort, db.records, db.counter, n)
      case Inserted(table) =>
        var index := table[|table| - 1].appendIndex;
        if RecordsOk(db.records) { InsertRecordKeeps(Abort, db.records, db.counter, n); }
        assert table[|table| - 1] == StoredRecord(recordCodec, record, index);
        db := db.(records := table, counter := if index > db.counter then index else db.counter);
        r := Ok(());
      case Skipped => r := Ok(());
      case Raised(cause) => r := Err(if cause == Full then DatabaseFailed else Rejected);
    }

    /** `iter_events`, consumed to its end or to the error it raises. */
    method IterEvents(run: string) returns (yielded: seq<Event>, failure: Option<LedgerError>)
      requires Sound(eventCodec)
      ensures failure.None? <==> ReadAll(eventCodec, SelectEvents(db.events, run)).Ok?
      ensures failure.None? ==> ReadAll(eventCodec, SelectEvents(db.events, run)) == Ok(yielded)
      ensures var rows := SelectEvents(db.events, run);
              |yielded| <= |rows| && Stores(eventCodec, rows[..|yielded|], yielded)
              && (failure.Some? ==> failure == Some(Integrity) && |yielded| < |rows| && !Authentic(eventCodec, rows[|yielded|]))
    {
      var rows := SelectEvents(db.events, run);
      yielded, failure := [], None;
      ReadAllFailsOnForeignRows(eventCodec, rows);
      var i := 0;
      while i < |rows|
        invariant 0 <= i <= |rows| && i == |yielded| && Stores(eventCodec, rows[..i], yielded)
      {
        var event := ReadEvent(eventCodec, rows[i]);
        ReadsIffAuthentic(eventCodec, rows[i]);
        if event.Err? {
          return yielded, Some(event.error);
        }
        yielded := yielded + [event.value];
        i := i + 1;
      }
      assert rows[..i] == rows;
      StoresReadBack(eventCodec, rows, yielded);
    }
  }
}
