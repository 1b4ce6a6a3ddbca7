/** A bounded replica of a host's records: snapshots and numbered change messages arrive over a channel
    that may lose, repeat, reorder and mix them
    (shared/reliableKernelClientFeed.ts, lines 293-401 and 403-525). */
module ClientFeed {
  import opened Options

  type Id = string
  type Type = string

  /** Structured plain data. Only strings are told apart from the other scalars. */
  datatype Plain = Text(text: string) | Scalar | Arr(items: seq<Plain>) | Obj(fields: seq<Field>)
  datatype Field = Field(name: string, value: Plain)

  /** The string held by the first field of this name; "" when there is none. */
  function TextField(fields: seq<Field>, name: string): string {
    if fields == [] then ""
    else if fields[0].name == name then (if fields[0].value.Text? then fields[0].value.text else "")
    else TextField(fields[1..], name)
  }

  /** The id of a record; "" for anything that has no usable id. */
  function IdOf(value: Plain): Id {
    if value.Obj? then TextField(value.fields, "id") else ""
  }

  /** The constant tables: which change types are known, and which array key holds which type. */
  datatype Tables = Tables(isChangeType: Type -> bool, arrayType: string -> Option<Type>)

  datatype Operation = Upsert | Remove | OtherOperation
  datatype Change = NotAnObject | Change(typ: Type, operation: Operation, id: Id, record: Option<Plain>)

  /** A decimal field is None when it is not a canonical decimal string; an id of null is None. */
  datatype Message =
    | Unclonable
    | Snapshot(sessionId: Id, hostBootId: Id, messageSeq: Option<nat>, commitSeq: Option<nat>, projections: Plain)
    | Changes(session: Option<Id>, hostBoot: Option<Id>, seqNo: Option<nat>, commit: Option<nat>, changes: Option<seq<Change>>)
    | OtherType

  datatype Reason = HostBootMismatch | SessionMismatch | MessageGap | CommitOrder | UnknownChangeType | ApplyFailed

  datatype Ack = Ack(sessionId: Option<Id>, hostBootId: Option<Id>, messageSeq: nat)

  /** The client's records: one bucket per type. */
  type Records = map<Type, map<Id, Plain>>

  function Bucketed(records: Records, typ: Type): map<Id, Plain> {
    if typ in records then records[typ] else map[]
  }

  // ----- one change, and a batch of them

  datatype Outcome<T> = Done(value: T) | Refused(reason: Reason)

  function ApplyChange(tables: Tables, records: Records, change: Change): Outcome<Records> {
    if change.NotAnObject? then Refused(ApplyFailed)
    else if !tables.isChangeType(change.typ) then Refused(UnknownChangeType)
    else if change.id == "" || change.operation == OtherOperation then Refused(ApplyFailed)
    else
      var bucket := Bucketed(records, change.typ);
      if change.operation == Remove then Done(records[change.typ := bucket - {change.id}])
      else if change.record == None || !change.record.value.Obj? || IdOf(change.record.value) != change.id then Refused(ApplyFailed)
      else Done(records[change.typ := bucket[change.id := change.record.value]])
  }

  function ApplyChanges(tables: Tables, records: Records, changes: seq<Change>): Outcome<Records> {
    if changes == [] then Done(records)
    else
      var before := ApplyChanges(tables, records, changes[..|changes| - 1]);
      if before.Refused? then before else ApplyChange(tables, before.value, changes[|changes| - 1])
  }

  // ----- the records found in a snapshot

  function Filled(bucket: map<Id, Plain>, entries: seq<Plain>): map<Id, Plain> {
    if entries == [] then bucket
    else
      var before, entry := Filled(bucket, entries[..|entries| - 1]), entries[|entries| - 1];
      if IdOf(entry) == "" then before else before[IdOf(entry) := entry]
  }

  /** What visiting a value adds: every entry with an id, of every array under a known key, at any depth. */
  function Seeded(tables: Tables, records: Records, value: Plain): Records
    decreases value, 1, 0
  {
    match value
    case Arr(items) => SeededItems(tables, records, value, |items|)
    case Obj(fields) => SeededFields(tables, records, value, |fields|)
    case _ => records
  }

  function SeededItems(tables: Tables, records: Records, value: Plain, n: nat): Records
    requires value.Arr? && n <= |value.items|
    decreases value, 0, n
  {
    if n == 0 then records
    else Seeded(tables, SeededItems(tables, records, value, n - 1), value.items[n - 1])
  }

  function SeededFields(tables: Tables, records: Records, value: Plain, n: nat): Records
    requires value.Obj? && n <= |value.fields|
    decreases value, 0, n
  {
    if n == 0 then records
    else
      var before, field := SeededFields(tables, records, value, n - 1), value.fields[n - 1];
      Seeded(tables, SeededArray(tables, before, field), field.value)
  }

  function SeededArray(tables: Tables, records: Records, field: Field): Records {
    var typ := tables.arrayType(field.name);
    if typ.Some? && field.value.Arr? then records[typ.value := Filled(Bucketed(records, typ.value), field.value.items)] else records
  }

  // ----- the client

  datatype Client = Client(sessionId: Option<Id>, hostBootId: Option<Id>, messageSeq: Option<nat>, commitSeq: Option<nat>,
                           projections: Plain, records: Records, snapshotRequired: bool)

  datatype Applied = Applied(client: Client, ack: Option<Ack>, reason: Option<Reason>)

  const EMPTY := Client(None, None, None, None, Obj([]), map[], true)

  function RequireSnapshot(client: Client, reason: Reason): Applied {
    Applied(if reason == HostBootMismatch || reason == SessionMismatch then EMPTY else client.(snapshotRequired := true),
            None, Some(reason))
  }

  function Apply(tables: Tables, client: Client, message: Message): Applied {
    match message
    case Unclonable => RequireSnapshot(client, ApplyFailed)
    case OtherType => RequireSnapshot(client, UnknownChangeType)
    case Snapshot(session, boot, seqNo, commit, projections) =>
      if session == "" || boot == "" || seqNo == None || commit == None || !projections.Obj? then RequireSnapshot(client, ApplyFailed)
      else Applied(Client(Some(session), Some(boot), seqNo, commit, projections, Seeded(tables, map[], projections), false),
                   Some(Ack(Some(session), Some(boot), seqNo.value)), None)
    case Changes(session, boot, seqNo, commit, changes) =>
      if client.hostBootId != boot then RequireSnapshot(client, HostBootMismatch)
      else if client.sessionId != session then RequireSnapshot(client, SessionMismatch)
      else if seqNo == None || client.messageSeq == None then RequireSnapshot(client, ApplyFailed)
      else if seqNo.value != client.messageSeq.value + 1 then RequireSnapshot(client, MessageGap)
      else if commit == None || client.commitSeq == None then RequireSnapshot(client, ApplyFailed)
      else if commit.value <= client.commitSeq.value then RequireSnapshot(client, CommitOrder)
      else if changes == None then RequireSnapshot(client, ApplyFailed)
      else
        var after := ApplyChanges(tables, client.records, changes.value);
        if after.Refused? then RequireSnapshot(client, after.reason)
        else Applied(client.(messageSeq := seqNo, commitSeq := commit, records := after.value, snapshotRequired := false),
                     Some(Ack(session, boot, seqNo.value)), None)
  }

  // ----- the records on the heap

  /** One inner map. Client states share buckets; a batch copies a bucket before it first writes to it. */
  class Bucket {
    var entries: map<Id, Plain>

    constructor (entries: map<Id, Plain>)
      ensures this.entries == entries
    {
      this.entries := entries;
    }

    method Set(id: Id, record: Plain)
      modifies this
      ensures entries == old(entries)[id := record]
    {
      entries := entries[id := record];
    }

    method Delete(id: Id)
      modifies this
      ensures entries == old(entries) - {id}
    {
      entries := entries - {id};
    }
  }

  type Buckets = map<Type, Bucket>

  ghost function View(buckets: Buckets): Records
    reads buckets.Values
  {
    map typ | typ in buckets :: buckets[typ].entries
  }

  /** No bucket is stored under two types. */
  ghost predicate Separate(buckets: Buckets) {
    forall t, u | t in buckets && u in buckets && t != u :: buckets[t] != buckets[u]
  }

  datatype State = State(sessionId: Option<Id>, hostBootId: Option<Id>, messageSeq: Option<nat>, commitSeq: Option<nat>,
                         projections: Plain, buckets: Buckets, snapshotRequired: bool)

  ghost function ClientOf(state: State): Client
    reads state.buckets.Values
  {
    Client(state.sessionId, state.hostBootId, state.messageSeq, state.commitSeq, state.projections, View(state.buckets), state.snapshotRequired)
  }

  method FillBucket(bucket: Bucket, entries: seq<Plain>)
    modifies bucket
    ensures bucket.entries == Filled(old(bucket.entries), entries)
  {
    for i := 0 to |entries|
      invariant bucket.entries == Filled(old(bucket.entries), entries[..i])
    {
      assert entries[..i + 1][..i] == entries[..i];
      if IdOf(entries[i]) != "" { bucket.Set(IdOf(entries[i]), entries[i]); }
    }
    assert entries[..|entries|] == entries;
  }

  /** The buckets grown from those given are the same ones, or new. */
  twostate predicate Grown(buckets: Buckets, new grown: Buckets)
  {
    && Separate(grown)
    && forall t | t in grown :: (t in buckets && grown[t] == buckets[t]) || fresh(grown[t])
  }

  method VisitArray(tables: Tables, field: Field, buckets: Buckets) returns (grown: Buckets)
    requires Separate(buckets)
    modifies buckets.Values
    ensures Grown(buckets, grown)
    ensures View(grown) == SeededArray(tables, old(View(buckets)), field)
  {
    grown := buckets;
    var typ := tables.arrayType(field.name);
    if typ.Some? && field.value.Arr? {
      if typ.value !in grown {
        var bucket := new Bucket(map[]);
        grown := grown[typ.value := bucket];
      }
      FillBucket(grown[typ.value], field.value.items);
    }
  }

  method Visit(tables: Tables, value: Plain, buckets: Buckets) returns (grown: Buckets)
    requires Separate(buckets)
    modifies buckets.Values
    ensures Grown(buckets, grown)
    ensures View(grown) == Seeded(tables, old(View(buckets)), value)
    decreases value
  {
    grown := buckets;
    match value
    case Arr(items) =>
      for i := 0 to |items|
        invariant Grown(buckets, grown)
        invariant View(grown) == SeededItems(tables, old(View(buckets)), value, i)
      {
        grown := Visit(tables, items[i], grown);
      }
    case Obj(fields) =>
      for i := 0 to |fields|
        invariant Grown(buckets, grown)
        invariant View(grown) == SeededFields(tables, old(View(buckets)), value, i)
      {
        grown := VisitArray(tables, fields[i], grown);
        grown := Visit(tables, fields[i].value, grown);
      }
    case _ =>
  }

  method SeedRecordsFromSnapshot(tables: Tables, projections: Plain) returns (buckets: Buckets)
    ensures View(buckets) == Seeded(tables, map[], projections)
    ensures Separate(buckets) && forall t | t in buckets :: fresh(buckets[t])
  {
    buckets := Visit(tables, projections, map[]);
  }

  /** The buckets of the types touched so far are private copies; the others are still shared. */
  ghost predicate Copied(shared: Buckets, next: Buckets, copied: set<Type>) {
    && (forall t | t in copied :: t in next && next[t] !in shared.Values)
    && (forall t, u | t in copied && u in copied && t != u :: next[t] != next[u])
    && (forall t | t !in copied :: (t in next <==> t in shared) && (t in next ==> next[t] == shared[t]))
  }

  ghost function Private(next: Buckets, copied: set<Type>): set<Bucket> {
    set t | t in copied && t in next :: next[t]
  }

  /** Copies the bucket of the type, unless this batch has already done so. */
  method CopyBucket(ghost shared: Buckets, next: Buckets, copied: set<Type>, typ: Type) returns (own: Buckets, now: set<Type>)
    requires Copied(shared, next, copied)
    ensures Copied(shared, own, now) && now == copied + {typ} && fresh(Private(own, now) - Private(next, copied))
    ensures View(own) == View(next)[typ := Bucketed(View(next), typ)]
  {
    own, now := next, copied;
    if typ !in now {
      var bucket := new Bucket(if typ in own then own[typ].entries else map[]);
      own := own[typ := bucket];
      now := now + {typ};
      CopyIsPrivate(shared, next, copied, typ, bucket);
    }
  }

  lemma CopyIsPrivate(shared: Buckets, next: Buckets, copied: set<Type>, typ: Type, bucket: Bucket)
    requires Copied(shared, next, copied) && typ !in copied && bucket !in shared.Values && bucket !in Private(next, copied)
    ensures Copied(shared, next[typ := bucket], copied + {typ})
    ensures Private(next[typ := bucket], copied + {typ}) <= Private(next, copied) + {bucket}
  {}

  lemma OneBucketChanged(own: Buckets, typ: Type, copied: Records, records: Records, entries: map<Id, Plain>)
    requires copied == records[typ := Bucketed(records, typ)]
    requires own.Keys == copied.Keys && own[typ].entries == entries
    requires forall t | t in own && t != typ :: own[t].entries == copied[t]
    ensures View(own) == records[typ := entries]
  {}

  method ApplyOne(tables: Tables, ghost shared: Buckets, next: Buckets, copied: set<Type>, change: Change)
    returns (own: Buckets, now: set<Type>, refused: Option<Reason>)
    requires Copied(shared, next, copied)
    modifies Private(next, copied)
    ensures Copied(shared, own, now) && fresh(Private(own, now) - Private(next, copied))
    ensures refused == None ==> ApplyChange(tables, old(View(next)), change) == Done(View(own))
    ensures refused != None ==> ApplyChange(tables, old(View(next)), change) == Refused(refused.value)
  {
    own, now, refused := next, copied, None;
    if change.NotAnObject? { return own, now, Some(ApplyFailed); }
    if !tables.isChangeType(change.typ) { return own, now, Some(UnknownChangeType); }
    if change.id == "" || change.operation == OtherOperation { return own, now, Some(ApplyFailed); }
    own, now := CopyBucket(shared, next, copied, change.typ);
    ghost var records := old(View(next));
    label Copy:
    if change.operation == Remove {
      own[change.typ].Delete(change.id);
      OneBucketChanged(own, change.typ, old@Copy(View(own)), records, Bucketed(records, change.typ) - {change.id});
    } else {
      if change.record == None || !change.record.value.Obj? || IdOf(change.record.value) != change.id {
        return own, now, Some(ApplyFailed);
      }
      own[change.typ].Set(change.id, change.record.value);
      OneBucketChanged(own, change.typ, old@Copy(View(own)), records, Bucketed(records, change.typ)[change.id := change.record.value]);
    }
  }

  lemma OneMoreChange(tables: Tables, records: Records, changes: seq<Change>, i: nat)
    requires i < |changes|
    ensures ApplyChanges(tables, records, changes[..i + 1]) ==
      var before := ApplyChanges(tables, records, changes[..i]);
      if before.Refused? then before else ApplyChange(tables, before.value, changes[i])
  {
    assert changes[..i + 1][..i] == changes[..i];
  }

  method ApplyToBuckets(tables: Tables, shared: Buckets, changes: seq<Change>) returns (next: Buckets, refused: Option<Reason>)
    ensures refused == None ==> ApplyChanges(tables, old(View(shared)), changes) == Done(View(next))
    ensures refused != None ==> ApplyChanges(tables, old(View(shared)), changes) == Refused(refused.value)
  {
    next := shared;
    refused := None;
    var copied: set<Type> := {};
    for i := 0 to |changes|
      modifies {}
      invariant refused == None && Copied(shared, next, copied) && fresh(Private(next, copied))
      invariant ApplyChanges(tables, old(View(shared)), changes[..i]) == Done(View(next))
    {
      OneMoreChange(tables, old(View(shared)), changes, i);
      next, copied, refused := ApplyOne(tables, shared, next, copied, changes[i]);
      if refused != None {
        ApplyStops(tables, old(View(shared)), changes, i);
        return;
      }
    }
    assert changes[..|changes|] == changes;
  }

  lemma {:induction false} ApplyStops(tables: Tables, records: Records, changes: seq<Change>, i: nat)
    requires i < |changes| && ApplyChanges(tables, records, changes[..i + 1]).Refused?
    ensures ApplyChanges(tables, records, changes) == ApplyChanges(tables, records, changes[..i + 1])
    decreases |changes|
  {
    if i + 1 == |changes| {
      assert changes[..i + 1] == changes;
    } else {
      assert changes[..|changes| - 1][..i + 1] == changes[..i + 1];
      ApplyStops(tables, records, changes[..|changes| - 1], i);
    }
  }

  datatype Result = Result(state: State, ack: Option<Ack>, reason: Option<Reason>)

  method RequireSnapshotOf(current: State, reason: Reason) returns (result: Result)
    ensures ResultOf(result) == RequireSnapshot(ClientOf(current), reason)
  {
    var discardPriorHost := reason == HostBootMismatch || reason == SessionMismatch;
    result := Result(if discardPriorHost then State(None, None, None, None, Obj([]), map[], true)
                     else current.(snapshotRequired := true), None, Some(reason));
  }

  ghost function ResultOf(result: Result): Applied
    reads result.state.buckets.Values
  {
    Applied(ClientOf(result.state), result.ack, result.reason)
  }

  /** One message against the state. No bucket that existed before the call is written to. */
  method ApplyReliableKernelDataMessage(tables: Tables, current: State, message: Message) returns (result: Result)
    ensures ResultOf(result) == Apply(tables, old(ClientOf(current)), message)
    ensures ClientOf(current) == old(ClientOf(current))
  {
    match message
    case Unclonable => result := RequireSnapshotOf(current, ApplyFailed);
    case OtherType => result := RequireSnapshotOf(current, UnknownChangeType);
    case Snapshot(session, boot, seqNo, commit, projections) =>
      if session == "" || boot == "" || seqNo == None || commit == None || !projections.Obj? {
        result := RequireSnapshotOf(current, ApplyFailed);
        return;
      }
      var buckets := SeedRecordsFromSnapshot(tables, projections);
      result := Result(State(Some(session), Some(boot), seqNo, commit, projections, buckets, false),
                       Some(Ack(Some(session), Some(boot), seqNo.value)), None);
    case Changes(session, boot, seqNo, commit, changes) =>
      if current.hostBootId != boot { result := RequireSnapshotOf(current, HostBootMismatch); return; }
      if current.sessionId != session { result := RequireSnapshotOf(current, SessionMismatch); return; }
      if seqNo == None || current.messageSeq == None { result := RequireSnapshotOf(current, ApplyFailed); return; }
      if seqNo.value != current.messageSeq.value + 1 { result := RequireSnapshotOf(current, MessageGap); return; }
      if commit == None || current.commitSeq == None { result := RequireSnapshotOf(current, ApplyFailed); return; }
      if commit.value <= current.commitSeq.value { result := RequireSnapshotOf(current, CommitOrder); return; }
      if changes == None { result := RequireSnapshotOf(current, ApplyFailed); return; }
      var next, refused := ApplyToBuckets(tables, current.buckets, changes.value);
      if refused != None { result := RequireSnapshotOf(current, refused.value); return; }
      result := Result(current.(messageSeq := seqNo, commitSeq := commit, buckets := next, snapshotRequired := false),
                       Some(Ack(session, boot, seqNo.value)), None);
  }
}
