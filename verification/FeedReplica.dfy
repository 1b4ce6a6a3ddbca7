/** What the bounded client feed promises: whatever the channel does, a client that stands at message n
    of a session holds exactly the records the host had after message n
    (shared/reliableKernelClientFeed.ts, lines 309-401 and 485-509;
    backend/reliableKernel/clientFeed.ts, lines 400-455 and 822-826). */
module FeedReplica {
  import opened Options
  import opened ClientFeed

  // ----- the host's side

  datatype Key = Key(typ: Type, id: Id)
  /** The host's records in one table, without buckets. */
  type Table = map<Key, Plain>

  datatype Session = Session(sessionId: Id, hostBootId: Id)
  datatype HostMessage = Full(commit: nat, projections: Plain) | Delta(commit: nat, changes: seq<Change>)
  /** All messages of a session in the order of their numbers, which start at 1. */
  type Log = seq<HostMessage>
  type Hosts = map<Session, Log>

  datatype Row = Row(key: Key, record: Plain)

  function EntryRows(typ: Type, entries: seq<Plain>): seq<Row> {
    if entries == [] then []
    else
      var entry := entries[|entries| - 1];
      EntryRows(typ, entries[..|entries| - 1]) + (if IdOf(entry) == "" then [] else [Row(Key(typ, IdOf(entry)), entry)])
  }

  function FieldRows(tables: Tables, field: Field): seq<Row> {
    var typ := tables.arrayType(field.name);
    if typ.Some? && field.value.Arr? then EntryRows(typ.value, field.value.items) else []
  }

  /** Every record a snapshot shows, in the order in which the value is read. */
  function Rows(tables: Tables, value: Plain): seq<Row>
    decreases value, 1, 0
  {
    match value
    case Arr(items) => RowsOfItems(tables, value, |items|)
    case Obj(fields) => RowsOfFields(tables, value, |fields|)
    case _ => []
  }

  function RowsOfItems(tables: Tables, value: Plain, n: nat): seq<Row>
    requires value.Arr? && n <= |value.items|
    decreases value, 0, n
  {
    if n == 0 then [] else RowsOfItems(tables, value, n - 1) + Rows(tables, value.items[n - 1])
  }

  function RowsOfFields(tables: Tables, value: Plain, n: nat): seq<Row>
    requires value.Obj? && n <= |value.fields|
    decreases value, 0, n
  {
    if n == 0 then []
    else RowsOfFields(tables, value, n - 1) + (FieldRows(tables, value.fields[n - 1]) + Rows(tables, value.fields[n - 1].value))
  }

  /** A later row of the same record replaces an earlier one. */
  function WithRows(table: Table, rows: seq<Row>): Table {
    if rows == [] then table
    else
      var row := rows[|rows| - 1];
      WithRows(table, rows[..|rows| - 1])[row.key := row.record]
  }

  function Changed(table: Table, change: Change): Table
    requires change.Change? && (change.operation == Upsert ==> change.record.Some?)
  {
    var key := Key(change.typ, change.id);
    if change.operation == Upsert then table[key := change.record.value] else table - {key}
  }

  ghost predicate SoundChange(tables: Tables, change: Change) {
    && change.Change? && tables.isChangeType(change.typ) && change.id != "" && change.operation != OtherOperation
    && (change.operation == Upsert ==> change.record.Some? && change.record.value.Obj? && IdOf(change.record.value) == change.id)
  }

  ghost predicate SoundChanges(tables: Tables, changes: seq<Change>) {
    forall i | 0 <= i < |changes| :: SoundChange(tables, changes[i])
  }

  ghost function ChangedAll(tables: Tables, table: Table, changes: seq<Change>): Table
    requires SoundChanges(tables, changes)
  {
    if changes == [] then table
    else
      var k := |changes| - 1;
      assert SoundChange(tables, changes[k]);
      assert forall i | 0 <= i < k :: changes[..k][i] == changes[i];
      Changed(ChangedAll(tables, table, changes[..k]), changes[k])
  }

  /** A session opens with a snapshot, its changes are well formed, and their commits move forward. */
  ghost predicate SoundLog(tables: Tables, log: Log) {
    && (log != [] ==> log[0].Full?)
    && (forall i | 0 <= i < |log| :: if log[i].Full? then log[i].projections.Obj? else SoundChanges(tables, log[i].changes))
    && (forall i: nat, j: nat | j == i + 1 < |log| && log[j].Delta? :: log[i].commit < log[j].commit)
  }

  ghost predicate SoundHosts(tables: Tables, hosts: Hosts) {
    && (forall s | s in hosts :: s.sessionId != "" && s.hostBootId != "" && SoundLog(tables, hosts[s]))
  }

  /** The host's records after its first n messages. */
  ghost function HostTable(tables: Tables, log: Log, n: nat): Table
    requires SoundLog(tables, log) && n <= |log|
  {
    if n == 0 then map[]
    else match log[n - 1]
      case Full(_, projections) => WithRows(map[], Rows(tables, projections))
      case Delta(_, changes) => ChangedAll(tables, HostTable(tables, log, n - 1), changes)
  }

  // ----- the client's buckets against the host's table

  function Look(records: Records, typ: Type, id: Id): Option<Plain> {
    if typ in records && id in records[typ] then Some(records[typ][id]) else None
  }

  function LookUp(table: Table, key: Key): Option<Plain> {
    if key in table then Some(table[key]) else None
  }

  ghost predicate SameRecords(records: Records, table: Table) {
    forall typ: Type, id: Id :: Look(records, typ, id) == LookUp(table, Key(typ, id))
  }

  lemma {:induction false} WithMoreRows(table: Table, a: seq<Row>, b: seq<Row>)
    ensures WithRows(table, a + b) == WithRows(WithRows(table, a), b)
  {
    if b == [] {
      assert a + b == a;
    } else {
      WithMoreRows(table, a, b[..|b| - 1]);
      assert (a + b)[..|a + b| - 1] == a + b[..|b| - 1];
    }
  }

  lemma {:induction false} FilledIsRows(records: Records, table: Table, typ: Type, entries: seq<Plain>)
    requires SameRecords(records, table)
    ensures SameRecords(records[typ := Filled(Bucketed(records, typ), entries)], WithRows(table, EntryRows(typ, entries)))
  {
    if entries != [] {
      var entry := entries[|entries| - 1];
      FilledIsRows(records, table, typ, entries[..|entries| - 1]);
      var rows := EntryRows(typ, entries[..|entries| - 1]);
      if IdOf(entry) == "" {
        assert rows + [] == rows;
      } else {
        WithMoreRows(table, rows, [Row(Key(typ, IdOf(entry)), entry)]);
      }
    }
  }

  lemma SeededArrayIsRows(tables: Tables, records: Records, table: Table, field: Field)
    requires SameRecords(records, table)
    ensures SameRecords(SeededArray(tables, records, field), WithRows(table, FieldRows(tables, field)))
  {
    var typ := tables.arrayType(field.name);
    if typ.Some? && field.value.Arr? { FilledIsRows(records, table, typ.value, field.value.items); }
  }

  /** The nested visit finds exactly the rows of the snapshot. */
  lemma {:induction false} SeededIsRows(tables: Tables, records: Records, table: Table, value: Plain)
    requires SameRecords(records, table)
    ensures SameRecords(Seeded(tables, records, value), WithRows(table, Rows(tables, value)))
    decreases value, 1, 0
  {
    match value
    case Arr(items) => SeededItemsIsRows(tables, records, table, value, |items|);
    case Obj(fields) => SeededFieldsIsRows(tables, records, table, value, |fields|);
    case _ =>
  }

  lemma {:induction false} SeededItemsIsRows(tables: Tables, records: Records, table: Table, value: Plain, n: nat)
    requires SameRecords(records, table) && value.Arr? && n <= |value.items|
    ensures SameRecords(SeededItems(tables, records, value, n), WithRows(table, RowsOfItems(tables, value, n)))
    decreases value, 0, n
  {
    if n > 0 {
      SeededItemsIsRows(tables, records, table, value, n - 1);
      var rows := RowsOfItems(tables, value, n - 1);
      SeededIsRows(tables, SeededItems(tables, records, value, n - 1), WithRows(table, rows), value.items[n - 1]);
      WithMoreRows(table, rows, Rows(tables, value.items[n - 1]));
    }
  }

  lemma {:induction false} SeededFieldsIsRows(tables: Tables, records: Records, table: Table, value: Plain, n: nat)
    requires SameRecords(records, table) && value.Obj? && n <= |value.fields|
    ensures SameRecords(SeededFields(tables, records, value, n), WithRows(table, RowsOfFields(tables, value, n)))
    decreases value, 0, n
  {
    if n > 0 {
      SeededFieldsIsRows(tables, records, table, value, n - 1);
      var before, field, rows := SeededFields(tables, records, value, n - 1), value.fields[n - 1], RowsOfFields(tables, value, n - 1);
      SeededArrayIsRows(tables, before, WithRows(table, rows), field);
      var own := FieldRows(tables, field);
      SeededIsRows(tables, SeededArray(tables, before, field), WithRows(WithRows(table, rows), own), field.value);
      WithMoreRows(WithRows(table, rows), own, Rows(tables, field.value));
      WithMoreRows(table, rows, own + Rows(tables, field.value));
    }
  }

  lemma ChangeIsApplied(tables: Tables, records: Records, table: Table, change: Change)
    requires SameRecords(records, table) && SoundChange(tables, change)
    ensures var after := ApplyChange(tables, records, change);
      after.Done? && SameRecords(after.value, Changed(table, change))
  {}

  /** Well-formed changes are never refused, and do to the buckets what they do to the table. */
  lemma {:induction false} ChangesAreApplied(tables: Tables, records: Records, table: Table, changes: seq<Change>)
    requires SameRecords(records, table) && SoundChanges(tables, changes)
    ensures var after := ApplyChanges(tables, records, changes);
      after.Done? && SameRecords(after.value, ChangedAll(tables, table, changes))
  {
    if changes != [] {
      var k := |changes| - 1;
      assert SoundChange(tables, changes[k]);
      assert forall i | 0 <= i < k :: changes[..k][i] == changes[i];
      ChangesAreApplied(tables, records, table, changes[..k]);
      hide SameRecords, SoundChange;
      ChangeIsApplied(tables, ApplyChanges(tables, records, changes[..k]).value, ChangedAll(tables, table, changes[..k]), changes[k]);
    }
  }

  // ----- the channel

  /** Message k of the log, as it goes over the wire with number k + 1. */
  function Wire(session: Session, k: nat, message: HostMessage): Message {
    match message
    case Full(commit, projections) => Snapshot(session.sessionId, session.hostBootId, Some(k + 1), Some(commit), projections)
    case Delta(commit, changes) => Changes(Some(session.sessionId), Some(session.hostBootId), Some(k + 1), Some(commit), Some(changes))
  }

  /** A message whose own fields make it unusable. */
  predicate Malformed(message: Message) {
    match message
    case Snapshot(session, boot, seqNo, commit, projections) => session == "" || boot == "" || seqNo == None || commit == None || !projections.Obj?
    case Changes(_, _, seqNo, commit, changes) => seqNo == None || commit == None || changes == None
    case _ => true
  }

  ghost predicate SentAs(hosts: Hosts, message: Message, session: Session, k: nat) {
    session in hosts && k < |hosts[session]| && message == Wire(session, k, hosts[session][k])
  }

  /** The channel hands over a message of some session, any number of times and in any order, or a broken one. */
  ghost predicate Deliverable(hosts: Hosts, message: Message) {
    Malformed(message) || exists session, k: nat :: SentAs(hosts, message, session, k)
  }

  // ----- what holds in every run

  /** The client has the session's position n and the records the host had there. */
  ghost predicate StandsAt(tables: Tables, hosts: Hosts, client: Client, session: Session, n: nat)
    requires SoundHosts(tables, hosts)
  {
    && session in hosts && 0 < n <= |hosts[session]|
    && client.sessionId == Some(session.sessionId) && client.hostBootId == Some(session.hostBootId)
    && client.messageSeq == Some(n) && client.commitSeq == Some(hosts[session][n - 1].commit)
    && SameRecords(client.records, HostTable(tables, hosts[session], n))
  }

  ghost predicate Blank(client: Client) {
    client.sessionId == None && client.hostBootId == None && client.messageSeq == None && client.commitSeq == None && client.records == map[]
  }

  ghost predicate InSync(tables: Tables, hosts: Hosts, client: Client)
    requires SoundHosts(tables, hosts)
  {
    Blank(client) || exists session, n: nat :: StandsAt(tables, hosts, client, session, n)
  }

  function Run(tables: Tables, client: Client, delivered: seq<Message>): Client {
    if delivered == [] then client
    else Apply(tables, Run(tables, client, delivered[..|delivered| - 1]), delivered[|delivered| - 1]).client
  }

  /** A refusal keeps position and records, or drops everything when the message is of another session or boot. */
  lemma RefusalKeepsRecords(tables: Tables, client: Client, message: Message)
    ensures var applied := Apply(tables, client, message);
      applied.reason.Some? ==>
        && applied.ack == None && applied.client.snapshotRequired
        && if applied.reason.value in {HostBootMismatch, SessionMismatch} then applied.client == EMPTY
           else applied.client == client.(snapshotRequired := true)
  {}

  lemma SnapshotIsTaken(tables: Tables, hosts: Hosts, client: Client, session: Session, k: nat, message: Message)
    requires SoundHosts(tables, hosts) && SentAs(hosts, message, session, k) && message.Snapshot?
    ensures var applied := Apply(tables, client, message);
      StandsAt(tables, hosts, applied.client, session, k + 1) && applied.ack == Some(Ack(Some(session.sessionId), Some(session.hostBootId), k + 1))
  {
    var log := hosts[session];
    assert SoundLog(tables, log);
    assert SameRecords(map[], map[]);
    SeededIsRows(tables, map[], map[], log[k].projections);
  }

  lemma NextIsTaken(tables: Tables, hosts: Hosts, client: Client, session: Session, n: nat, message: Message)
    requires SoundHosts(tables, hosts) && StandsAt(tables, hosts, client, session, n)
    requires SentAs(hosts, message, session, n) && message.Changes?
    ensures var applied := Apply(tables, client, message);
      StandsAt(tables, hosts, applied.client, session, n + 1) && applied.ack == Some(Ack(Some(session.sessionId), Some(session.hostBootId), n + 1))
  {
    var log := hosts[session];
    assert SoundLog(tables, log);
    assert log[n - 1].commit < log[n].commit;
    ChangesAreApplied(tables, client.records, HostTable(tables, log, n), log[n].changes);
  }

  /** A client at n takes exactly the snapshots and the change message n + 1 of its own session. */
  lemma TakesExactlyTheNext(tables: Tables, hosts: Hosts, client: Client, session: Session, n: nat, message: Message, other: Session, k: nat)
    requires SoundHosts(tables, hosts) && StandsAt(tables, hosts, client, session, n) && SentAs(hosts, message, other, k)
    ensures Apply(tables, client, message).ack.Some? <==> message.Snapshot? || (other == session && k == n)
  {
    if message.Snapshot? {
      SnapshotIsTaken(tables, hosts, client, other, k, message);
    } else if other == session && k == n {
      NextIsTaken(tables, hosts, client, session, n, message);
    }
  }

  /** One delivery keeps the replica right, and an acknowledgement names the place where it now is right. */
  lemma DeliveryKeepsInSync(tables: Tables, hosts: Hosts, client: Client, message: Message)
    requires SoundHosts(tables, hosts) && InSync(tables, hosts, client) && Deliverable(hosts, message)
    ensures var applied := Apply(tables, client, message);
      && InSync(tables, hosts, applied.client)
      && (applied.ack.Some? ==> exists session: Session, n: nat ::
            StandsAt(tables, hosts, applied.client, session, n) && applied.ack == Some(Ack(Some(session.sessionId), Some(session.hostBootId), n)))
  {
    var applied := Apply(tables, client, message);
    RefusalKeepsRecords(tables, client, message);
    if applied.reason.Some? {
      if applied.reason.value !in {HostBootMismatch, SessionMismatch} && !Blank(client) {
        var session, n: nat :| StandsAt(tables, hosts, client, session, n);
        assert StandsAt(tables, hosts, applied.client, session, n);
      }
    } else if !Malformed(message) {
      var other, k: nat :| SentAs(hosts, message, other, k);
      if message.Snapshot? {
        SnapshotIsTaken(tables, hosts, client, other, k, message);
      } else {
        var session, n: nat :| StandsAt(tables, hosts, client, session, n);
        TakesExactlyTheNext(tables, hosts, client, session, n, message, other, k);
        NextIsTaken(tables, hosts, client, session, n, message);
      }
    }
  }

  /** Whatever is lost, repeated, reordered or mixed, the replica is right wherever it stands. */
  lemma {:induction false} RunKeepsInSync(tables: Tables, hosts: Hosts, delivered: seq<Message>)
    requires SoundHosts(tables, hosts) && forall m | m in delivered :: Deliverable(hosts, m)
    ensures InSync(tables, hosts, Run(tables, EMPTY, delivered))
  {
    if delivered != [] {
      var k := |delivered| - 1;
      RunKeepsInSync(tables, hosts, delivered[..k]);
      DeliveryKeepsInSync(tables, hosts, Run(tables, EMPTY, delivered[..k]), delivered[k]);
    }
  }

  /** From any state at all, a snapshot followed by the messages after it, in order, catches up. */
  lemma {:induction false} CatchesUp(tables: Tables, hosts: Hosts, client: Client, session: Session, k: nat, delivered: seq<Message>)
    requires SoundHosts(tables, hosts) && session in hosts && 0 < |delivered| && k + |delivered| <= |hosts[session]|
    requires hosts[session][k].Full?
    requires forall i | 0 <= i < |delivered| :: SentAs(hosts, delivered[i], session, k + i)
    ensures StandsAt(tables, hosts, Run(tables, client, delivered), session, k + |delivered|)
    decreases |delivered|
  {
    var last := |delivered| - 1;
    var before := Run(tables, client, delivered[..last]);
    if delivered[last].Snapshot? {
      SnapshotIsTaken(tables, hosts, before, session, k + last, delivered[last]);
    } else {
      CatchesUp(tables, hosts, client, session, k, delivered[..last]);
      NextIsTaken(tables, hosts, before, session, k + last, delivered[last]);
    }
  }
}
