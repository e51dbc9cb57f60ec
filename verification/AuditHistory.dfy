/**
  What the rows of the audit comment are after any run: the old rows followed by the rows the logged operations
  added, in that order, less exactly as many of the oldest as the caps dropped; and no delivery twice.
 */
module AuditHistory {
  import opened Wrappers
  import opened Text
  import opened AuditCodec
  import opened AuditComment
  import opened AuditStore
  import opened AuditOps
  import opened AuditRecorders

  /** What no later operation changes about a row. */
  datatype RowKey = RowKey(time: string, delivery: Option<string>, legacy: Option<string>)

  function KeyOf(row: Row): RowKey { RowKey(row.time, row.delivery, row.legacy) }

  function Keys(rows: seq<Row>): seq<RowKey> { seq(|rows|, k requires 0 <= k < |rows| => KeyOf(rows[k])) }

  predicate UniqueDeliveries(keys: seq<RowKey>) {
    forall i, j :: 0 <= i < j < |keys| ==> keys[i].delivery.None? || keys[i].delivery != keys[j].delivery
  }

  /** Dropping x, adding more, and dropping y is adding more and dropping x + y. */
  lemma DropTwice<T>(all: seq<T>, x: nat, more: seq<T>, y: nat)
    requires x <= |all| && y <= |all[x..] + more|
    ensures (all[x..] + more)[y..] == (all + more)[x + y..]
  {
    assert (all + more)[x..] == all[x..] + more;
    assert (all + more)[x..][y..] == (all + more)[x + y..];
  }

  lemma SuffixUnique(all: seq<RowKey>, d: nat)
    requires d <= |all| && UniqueDeliveries(all)
    ensures UniqueDeliveries(all[d..])
  {
    forall i, j | 0 <= i < j < |all[d..]| ensures all[d..][i].delivery.None? || all[d..][i].delivery != all[d..][j].delivery {
      assert all[d..][i] == all[d + i] && all[d..][j] == all[d + j];
    }
  }

  lemma DroppedKeys(scrub: Scrub, rows: seq<Row>, d: nat)
    requires d <= |rows|
    ensures |Keys(rows)| == |rows| && Keys(WrittenRows(scrub, rows[d..])) == Keys(rows)[d..]
  {
    hide Clean;
    var out := WrittenRows(scrub, rows[d..]);
    assert |Keys(out)| == |rows| - d;
    forall k | 0 <= k < |rows| - d ensures Keys(out)[k] == Keys(rows)[d..][k] {
      assert out[k] == Written(scrub, rows[d + k]);
    }
  }

  lemma KeysAppend(rows: seq<Row>, row: Row)
    ensures Keys(rows + [row]) == Keys(rows) + [KeyOf(row)]
  {}

  // ---------------------------------------------------------------------------------------------
  // One comment
  // ---------------------------------------------------------------------------------------------

  /** An audit comment of this pull request that the search finds and that can be read. */
  predicate Good(body: string, target: Target) {
    && body != "" && IsExpected(body, target) && Contains(body, Marker(target))
    && ParseCreated(SplitLines(body)).Ok? && ParseRows(body).Ok?
  }

  function RowsIn(body: string): seq<Row> { if ParseRows(body).Ok? then ParseRows(body).value else [] }

  /** The text is good, and holds the old keys and the added ones, less the oldest d; the newest is always there. */
  predicate Follows(env: Env, before: seq<RowKey>, added: seq<RowKey>, d: int, after: string) {
    && Good(after, env.target)
    && 0 <= d <= |before + added| && (before + added != [] ==> d < |before + added|)
    && Keys(RowsIn(after)) == (before + added)[d..]
    && (UniqueDeliveries(before) ==> UniqueDeliveries(Keys(RowsIn(after))))
  }

  predicate NewDelivery(keys: seq<RowKey>, delivery: Option<string>) {
    delivery.None? || forall k :: 0 <= k < |keys| ==> keys[k].delivery != delivery
  }

  lemma UniqueAppend(keys: seq<RowKey>, key: RowKey)
    requires UniqueDeliveries(keys) && NewDelivery(keys, key.delivery)
    ensures UniqueDeliveries(keys + [key])
  {}

  function EntryKey(entry: Entry): RowKey { RowKey(entry.when, entry.delivery, None) }

  /** The key an append adds, unless its delivery is there already. */
  function AddedBy(keys: seq<RowKey>, entry: Entry): seq<RowKey> {
    if NewDelivery(keys, entry.delivery) then [EntryKey(entry)] else []
  }

  lemma KnownIsNotNew(rows: seq<Row>, delivery: Option<string>)
    ensures KnownDelivery(rows, delivery) <==> !NewDelivery(Keys(rows), delivery)
  {
    var keys := Keys(rows);
    assert forall k :: 0 <= k < |rows| ==> keys[k].delivery == rows[k].delivery;
    if KnownDelivery(rows, delivery) {
      var k :| 0 <= k < |rows| && rows[k].delivery == Some(delivery.value);
      assert keys[k].delivery == delivery;
    }
  }

  /** The table a change leads to, before it is trimmed. */
  datatype Table = Table(created: string, rows: seq<Row>)

  function CreatedIn(body: string): string {
    if ParseCreated(SplitLines(body)).Ok? then ParseCreated(SplitLines(body)).value else ""
  }

  function AppendTable(env: Env, existing: Option<string>, entry: Entry): Table {
    match existing
    case None => Table(entry.when, [NewRow(env.scrub, entry)])
    case Some(body) => Table(CreatedIn(body), RowsIn(body) + [NewRow(env.scrub, entry)])
  }

  function TableDrops(env: Env, table: Table): int { Dropped(env.scrub, table.created, table.rows, env.target) }

  lemma AppendFollows(env: Env, body: string, entry: Entry)
    requires env.Valid() && EntryOk(entry) && Good(body, env.target)
    requires Append(env.scrub, body, entry, env.target).Ok? && Append(env.scrub, body, entry, env.target) != Ok(body)
    ensures var keys, table := Keys(RowsIn(body)), AppendTable(env, Some(body), entry);
            && Keys(table.rows) == keys + AddedBy(keys, entry)
            && Follows(env, keys, AddedBy(keys, entry), TableDrops(env, table), Append(env.scrub, body, entry, env.target).value)
  {
    hide *;
    EnvParts(env);
    GoodParts(body, env.target);
    var created, rows := ParseCreated(SplitLines(body)).value, ParseRows(body).value;
    AppendKeepsRows(env.scrub, body, created, rows, entry, env.target);
    KnownIsNotNew(rows, entry.delivery);
    AppendTableIs(env, body, entry);
    AppendUnfolds(env.scrub, body, created, rows, entry, env.target);
    var after := Append(env.scrub, body, entry, env.target).value;
    if !KnownDelivery(rows, entry.delivery) {
      var all := rows + [NewRow(env.scrub, entry)];
      FinishListed(env.scrub, created, all, env.target);
      KeysAppend(rows, NewRow(env.scrub, entry));
      NewRowKey(env.scrub, entry);
      AddedOne(Keys(rows), entry);
      FollowsWritten(env, after, Keys(rows), [EntryKey(entry)], all, Dropped(env.scrub, created, all, env.target));
    }
  }

  lemma AppendTableIs(env: Env, body: string, entry: Entry)
    requires ParseCreated(SplitLines(body)).Ok? && ParseRows(body).Ok?
    ensures var created, rows := ParseCreated(SplitLines(body)).value, ParseRows(body).value + [NewRow(env.scrub, entry)];
            && AppendTable(env, Some(body), entry) == Table(created, rows)
            && TableDrops(env, Table(created, rows)) == Dropped(env.scrub, created, rows, env.target)
  {
    hide ParseCreated, ParseRows, NewRow, SplitLines, Dropped;
  }

  lemma AddedOne(keys: seq<RowKey>, entry: Entry)
    requires NewDelivery(keys, entry.delivery)
    ensures AddedBy(keys, entry) == [EntryKey(entry)]
    ensures UniqueDeliveries(keys) ==> UniqueDeliveries(keys + [EntryKey(entry)])
  {
    if UniqueDeliveries(keys) {
      UniqueAppend(keys, EntryKey(entry));
    }
  }

  lemma NewRowKey(scrub: Scrub, entry: Entry)
    ensures KeyOf(NewRow(scrub, entry)) == EntryKey(entry)
  {
    hide Normalized;
  }

  lemma EnvParts(env: Env)
    requires env.Valid()
    ensures env.scrub.Valid() && env.target.Valid()
  {}

  lemma GoodParts(body: string, target: Target)
    requires Good(body, target)
    ensures body != "" && IsExpected(body, target) && Contains(body, Marker(target))
    ensures ParseCreated(SplitLines(body)).Ok? && ParseRows(body).Ok? && RowsIn(body) == ParseRows(body).value
  {
    hide IsExpected, Contains, Marker, ParseCreated, ParseRows, SplitLines;
  }

  lemma FollowsWritten(env: Env, after: string, before: seq<RowKey>, added: seq<RowKey>, all: seq<Row>, d: int)
    requires 0 <= d < |all| && Keys(all) == before + added
    requires UniqueDeliveries(before) ==> UniqueDeliveries(before + added)
    requires IsExpected(after, env.target) && Contains(after, Marker(env.target)) && ParseCreated(SplitLines(after)).Ok?
    requires ParseRows(after) == Ok(WrittenRows(env.scrub, all[d..]))
    ensures Follows(env, before, added, d, after)
  {
    ExpectedNotEmpty(env.target);
    hide IsExpected, Contains, Marker, ParseCreated, ParseRows, SplitLines, WrittenRows, UniqueDeliveries, Keys;
    DroppedKeys(env.scrub, all, d);
    if UniqueDeliveries(before) {
      SuffixUnique(before + added, d);
    }
  }

  lemma RestampKeys(rows: seq<Row>, delivery: string, status: string)
    ensures Keys(Restamp(rows, delivery, status)) == Keys(rows)
  {}

  function RestampTable(body: string, delivery: string, status: string): Table {
    Table(CreatedIn(body), Restamp(RowsIn(body), delivery, status))
  }

  lemma RestampTableIs(env: Env, body: string, delivery: string, status: string)
    requires ParseCreated(SplitLines(body)).Ok? && ParseRows(body).Ok?
    ensures var created, rows := ParseCreated(SplitLines(body)).value, Restamp(ParseRows(body).value, delivery, status);
            && RestampTable(body, delivery, status) == Table(created, rows)
            && TableDrops(env, Table(created, rows)) == Dropped(env.scrub, created, rows, env.target)
  {
    hide ParseCreated, ParseRows, Restamp, SplitLines, Dropped;
  }

  lemma UpdateFollows(env: Env, body: string, delivery: string, status: string)
    requires env.Valid() && Good(body, env.target)
    requires UpdateStatus(env.scrub, body, delivery, status, env.target).Ok?
    requires UpdateStatus(env.scrub, body, delivery, status, env.target) != Ok(body)
    ensures var keys, table := Keys(RowsIn(body)), RestampTable(body, delivery, status);
            && Keys(table.rows) == keys + []
            && Follows(env, keys, [], TableDrops(env, table), UpdateStatus(env.scrub, body, delivery, status, env.target).value)
  {
    hide *;
    EnvParts(env);
    GoodParts(body, env.target);
    var created, rows := ParseCreated(SplitLines(body)).value, ParseRows(body).value;
    UpdateUnfolds(env.scrub, body, created, rows, delivery, status, env.target);
    RestampTableIs(env, body, delivery, status);
    var changed := Restamp(rows, delivery, status);
    var d := Dropped(env.scrub, created, changed, env.target);
    var after := UpdateStatus(env.scrub, body, delivery, status, env.target).value;
    RestampSize(rows, delivery, status);
    UpdateKeepsRows(env.scrub, body, created, rows, delivery, status, env.target);
    FinishListed(env.scrub, created, changed, env.target);
    RestampKeys(rows, delivery, status);
    assert Keys(rows) + [] == Keys(rows);
    FollowsWritten(env, after, Keys(rows), [], changed, d);
  }

  lemma RestampSize(rows: seq<Row>, delivery: string, status: string)
    ensures |Restamp(rows, delivery, status)| == |rows|
  {}

  lemma StartFollows(env: Env, entry: Entry)
    requires env.Valid() && EntryOk(entry)
    requires Append(env.scrub, "", entry, env.target).Ok?
    ensures var table := AppendTable(env, None, entry);
            && Keys(table.rows) == [] + [EntryKey(entry)]
            && Follows(env, [], [EntryKey(entry)], TableDrops(env, table), Append(env.scrub, "", entry, env.target).value)
  {
    hide *;
    EnvParts(env);
    AppendStartsBy(env.scrub, "", entry, env.target);
    AppendStarts(env.scrub, "", entry, env.target);
    FinishListed(env.scrub, entry.when, [NewRow(env.scrub, entry)], env.target);
    NewRowKey(env.scrub, entry);
    StartTable(env, entry);
    var all := [NewRow(env.scrub, entry)];
    KeysAppend([], NewRow(env.scrub, entry));
    assert [] + all == all && all[0..] == all && [] + [EntryKey(entry)] == [EntryKey(entry)];
    NoKeys(entry);
    TrimmingIsMinimal(env.scrub, entry.when, all, env.target);
    FollowsWritten(env, Append(env.scrub, "", entry, env.target).value, [], [EntryKey(entry)], all, 0);
  }

  lemma StartTable(env: Env, entry: Entry)
    ensures var all := [NewRow(env.scrub, entry)];
            && AppendTable(env, None, entry) == Table(entry.when, all)
            && TableDrops(env, Table(entry.when, all)) == Dropped(env.scrub, entry.when, all, env.target)
  {
    hide NewRow, Dropped;
  }

  lemma NoKeys(entry: Entry)
    ensures Keys([]) == [] && UniqueDeliveries([EntryKey(entry)])
  {}

  // ---------------------------------------------------------------------------------------------
  // One operation
  // ---------------------------------------------------------------------------------------------

  function StatusEntry(op: Op): Entry
    requires op.SetStatus? && op.command.Some?
  {
    Entry(op.command.value, op.status, op.when, Some(op.delivery))
  }

  /** The rows the operation adds to a comment with these rows. */
  function Additions(env: Env, op: Op, existing: Option<string>): seq<RowKey> {
    var keys := if existing.Some? then Keys(RowsIn(existing.value)) else [];
    match op
    case Record(entry) => AddedBy(keys, entry)
    case SetStatus(delivery, status, command, when) =>
      if existing.Some? && DeliveryHasStatus(UpdatedText(env, existing.value, delivery, status), delivery, status) then []
      else if command.None? then []
      else AddedBy(keys, StatusEntry(op))
  }

  function UpdatedText(env: Env, body: string, delivery: string, status: string): string {
    var updated := UpdateStatus(env.scrub, body, delivery, status, env.target);
    if updated.Ok? then updated.value else body
  }

  /** The table the operation wants to write, when it writes one. */
  function Wanted(env: Env, op: Op, existing: Option<string>): Table {
    match op
    case Record(entry) => AppendTable(env, existing, entry)
    case SetStatus(delivery, status, command, when) =>
      if existing.Some? && DeliveryHasStatus(UpdatedText(env, existing.value, delivery, status), delivery, status)
      then RestampTable(existing.value, delivery, status)
      else if command.None? then Table("", [])
      else AppendTable(env, existing, StatusEntry(op))
  }

  lemma RecordReplaces(env: Env, entry: Entry, existing: Option<string>)
    requires DecideRecord(env, entry, existing).Replace?
    ensures Append(env.scrub, if existing.Some? then existing.value else "", entry, env.target)
         == Ok(DecideRecord(env, entry, existing).body)
    ensures existing != Some(DecideRecord(env, entry, existing).body)
  {
    hide Append;
  }

  lemma StatusReplaces(env: Env, op: Op, body: string)
    requires op.SetStatus? && Decide(env, op, Some(body)).Replace? && Contains(body, Marker(env.target))
    ensures UpdateStatus(env.scrub, body, op.delivery, op.status, env.target) == Ok(UpdatedText(env, body, op.delivery, op.status))
    ensures Decide(env, op, Some(body)).body != body
    ensures if DeliveryHasStatus(UpdatedText(env, body, op.delivery, op.status), op.delivery, op.status)
            then Decide(env, op, Some(body)).body == UpdatedText(env, body, op.delivery, op.status)
                 && Additions(env, op, Some(body)) == []
                 && Wanted(env, op, Some(body)) == RestampTable(body, op.delivery, op.status)
            else op.command.Some? && Append(env.scrub, body, StatusEntry(op), env.target) == Ok(Decide(env, op, Some(body)).body)
                 && Additions(env, op, Some(body)) == AddedBy(Keys(RowsIn(body)), StatusEntry(op))
                 && Wanted(env, op, Some(body)) == AppendTable(env, Some(body), StatusEntry(op))
  {
    hide Append, UpdateStatus, DeliveryHasStatus, ParseRows, Contains, Marker, AddedBy, Keys, RowsIn, RestampTable, AppendTable;
  }

  /** What an operation writes over these keys follows from the table it wants, trimmed. */
  ghost predicate Outcome(env: Env, op: Op, existing: Option<string>, keys: seq<RowKey>) {
    var added, table := Additions(env, op, existing), Wanted(env, op, existing);
    && Decide(env, op, existing).Replace?
    && Keys(table.rows) == keys + added
    && Follows(env, keys, added, TableDrops(env, table), Decide(env, op, existing).body)
  }

  lemma OutcomeIs(env: Env, op: Op, existing: Option<string>, keys: seq<RowKey>)
    ensures Outcome(env, op, existing, keys) <==>
            && Decide(env, op, existing).Replace?
            && Keys(Wanted(env, op, existing).rows) == keys + Additions(env, op, existing)
            && Follows(env, keys, Additions(env, op, existing), TableDrops(env, Wanted(env, op, existing)), Decide(env, op, existing).body)
  {
    hide Decide, Keys, Wanted, Additions, Follows, TableDrops;
  }

  lemma RecordWants(env: Env, entry: Entry, existing: Option<string>)
    ensures Wanted(env, Record(entry), existing) == AppendTable(env, existing, entry)
    ensures Additions(env, Record(entry), existing)
         == AddedBy(if existing.Some? then Keys(RowsIn(existing.value)) else [], entry)
    ensures Decide(env, Record(entry), existing) == DecideRecord(env, entry, existing)
    ensures OpOk(Record(entry)) <==> EntryOk(entry)
  {
    hide AppendTable, AddedBy, Keys, RowsIn, DecideRecord, TimeOk;
  }

  lemma StatusEntryOk(op: Op)
    requires OpOk(op) && op.SetStatus? && op.command.Some?
    ensures EntryOk(StatusEntry(op))
  {
    hide TimeOk;
  }

  lemma DecideFollows(env: Env, op: Op, body: string)
    requires env.Valid() && OpOk(op) && Good(body, env.target) && Decide(env, op, Some(body)).Replace?
    ensures Outcome(env, op, Some(body), Keys(RowsIn(body)))
  {
    hide *;
    GoodParts(body, env.target);
    OutcomeIs(env, op, Some(body), Keys(RowsIn(body)));
    if op.Record? {
      RecordWants(env, op.entry, Some(body));
      RecordReplaces(env, op.entry, Some(body));
      AppendFollows(env, body, op.entry);
    } else {
      StatusReplaces(env, op, body);
      if DeliveryHasStatus(UpdatedText(env, body, op.delivery, op.status), op.delivery, op.status) {
        UpdateFollows(env, body, op.delivery, op.status);
      } else {
        StatusEntryOk(op);
        AppendFollows(env, body, StatusEntry(op));
      }
    }
  }

  lemma FirstAdds(entry: Entry)
    ensures AddedBy([], entry) == [EntryKey(entry)]
  {}

  lemma StatusStarts(env: Env, op: Op)
    requires op.SetStatus? && Decide(env, op, None).Replace?
    ensures op.command.Some? && Append(env.scrub, "", StatusEntry(op), env.target) == Ok(Decide(env, op, None).body)
    ensures Wanted(env, op, None) == AppendTable(env, None, StatusEntry(op))
    ensures Additions(env, op, None) == AddedBy([], StatusEntry(op))
  {
    hide Append, DeliveryHasStatus, ParseRows, AppendTable, AddedBy;
  }

  lemma CreateFollows(env: Env, op: Op)
    requires env.Valid() && OpOk(op) && Decide(env, op, None).Replace?
    ensures Outcome(env, op, None, [])
  {
    hide *;
    OutcomeIs(env, op, None, []);
    if op.Record? {
      RecordWants(env, op.entry, None);
      RecordReplaces(env, op.entry, None);
      StartFollows(env, op.entry);
      FirstAdds(op.entry);
    } else {
      StatusStarts(env, op);
      StatusEntryOk(op);
      StartFollows(env, StatusEntry(op));
      FirstAdds(StatusEntry(op));
    }
  }

  // ---------------------------------------------------------------------------------------------
  // All comments
  // ---------------------------------------------------------------------------------------------

  /** At most one audit comment, and it can be read. */
  predicate Tracked(env: Env, store: Store) {
    && store.Valid()
    && var ids := Listing(store, env.target);
       ids == [] || (|ids| == 1 && Good(BodyAt(store.bodies, ids[0]), env.target))
  }

  function Existing(env: Env, store: Store): Option<string> {
    var ids := Listing(store, env.target);
    if ids == [] then None else Some(BodyAt(store.bodies, ids[0]))
  }

  function StoreKeys(env: Env, store: Store): seq<RowKey> {
    var existing := Existing(env, store);
    if existing.Some? then Keys(RowsIn(existing.value)) else []
  }

  /** The rows one logged operation added. */
  function TxAdds(env: Env, store: Store, tx: Tx): seq<RowKey> {
    if tx.done >= 1 && Decide(env, tx.op, Existing(env, store)).Replace? then Additions(env, tx.op, Existing(env, store)) else []
  }

  /** How many rows the trimming of one logged operation dropped. */
  function TxDrops(env: Env, store: Store, tx: Tx): int {
    if tx.done >= 1 && Decide(env, tx.op, Existing(env, store)).Replace?
    then TableDrops(env, Wanted(env, tx.op, Existing(env, store))) else 0
  }

  /** The rows the logged operations added, in the order of the log. */
  function Added(env: Env, init: Store, log: seq<Tx>): seq<RowKey> {
    if log == [] then []
    else
      var rest := log[..|log| - 1];
      Added(env, init, rest) + TxAdds(env, Serial(env, init, rest), log[|log| - 1])
  }

  /** How many rows the caps dropped over the whole log. */
  function Lost(env: Env, init: Store, log: seq<Tx>): int {
    if log == [] then 0
    else
      var rest := log[..|log| - 1];
      Lost(env, init, rest) + TxDrops(env, Serial(env, init, rest), log[|log| - 1])
  }

  lemma ListingPut(store: Store, id: nat, text: string, target: Target)
    requires store.Valid() && Listing(store, target) == [id] && Listed(text, target)
    ensures Listing(Perform(store, Put(id, text)), target) == [id]
    ensures BodyAt(Perform(store, Put(id, text)).bodies, id) == text
  {
    hide Listed, ListTo;
    ListToIs(store.bodies, store.next, target);
    assert id in Listing(store, target);
    ListToSame(store.bodies, store.bodies[id := text], store.next, target);
  }

  lemma GoodListed(body: string, target: Target)
    requires Good(body, target)
    ensures Listed(body, target)
  {
    hide *;
    GoodParts(body, target);
    ExpectedListed(body, target);
  }

  lemma FollowsParts(env: Env, before: seq<RowKey>, added: seq<RowKey>, d: int, after: string)
    requires Follows(env, before, added, d, after)
    ensures Good(after, env.target) && Listed(after, env.target)
    ensures 0 <= d <= |before + added| && (before + added != [] ==> d < |before + added|)
    ensures Keys(RowsIn(after)) == (before + added)[d..]
    ensures UniqueDeliveries(before) ==> UniqueDeliveries(Keys(RowsIn(after)))
  {
    hide Good, RowsIn, Keys, UniqueDeliveries;
    GoodListed(after, env.target);
  }

  /** The plan in a store with at most one audit comment. */
  lemma TrackedPlan(env: Env, op: Op, store: Store)
    requires Tracked(env, store)
    ensures var decision := Decide(env, op, Existing(env, store));
            var ids := Listing(store, env.target);
            Plan(env, op, store) ==
              if decision.Replace? then [if ids == [] then Add(decision.body) else Put(ids[0], decision.body)] else []
  {
    hide Listing, Decide, Good, BodyAt;
  }

  /** A store whose listing is one readable comment is tracked. */
  lemma TrackedBy(env: Env, store: Store, id: nat, text: string)
    requires store.Valid() && Listing(store, env.target) == [id] && BodyAt(store.bodies, id) == text && Good(text, env.target)
    ensures Tracked(env, store) && Existing(env, store) == Some(text)
  {
    hide Listing, Good, BodyAt;
  }

  lemma AddShape(store: Store, text: string)
    requires store.Valid()
    ensures Perform(store, Add(text)).Valid() && BodyAt(Perform(store, Add(text)).bodies, store.next) == text
  {}

  lemma PutShape(store: Store, id: nat, text: string)
    requires store.Valid()
    ensures Perform(store, Put(id, text)).Valid()
  {}

  lemma TrackedAdd(env: Env, store: Store, text: string)
    requires store.Valid() && Listing(store, env.target) == [] && Good(text, env.target)
    ensures Tracked(env, Perform(store, Add(text))) && Existing(env, Perform(store, Add(text))) == Some(text)
  {
    hide *;
    GoodListed(text, env.target);
    ListingAdd(store, text, env.target);
    AddShape(store, text);
    TrackedBy(env, Perform(store, Add(text)), store.next, text);
  }

  lemma TrackedPut(env: Env, store: Store, id: nat, text: string)
    requires store.Valid() && Listing(store, env.target) == [id] && Good(text, env.target)
    ensures Tracked(env, Perform(store, Put(id, text))) && Existing(env, Perform(store, Put(id, text))) == Some(text)
    ensures Listing(Perform(store, Put(id, text)), env.target) == [id]
  {
    hide *;
    GoodListed(text, env.target);
    ListingPut(store, id, text, env.target);
    PutShape(store, id, text);
    TrackedBy(env, Perform(store, Put(id, text)), id, text);
  }

  lemma RunTxOne(env: Env, store: Store, tx: Tx)
    ensures Plan(env, tx.op, store) == [] || tx.done == 0 ==> RunTx(env, store, tx) == store
    ensures |Plan(env, tx.op, store)| == 1 && tx.done >= 1 ==> RunTx(env, store, tx) == Perform(store, Plan(env, tx.op, store)[0])
  {
    hide Plan, Perform;
    var plan := Plan(env, tx.op, store);
    if |plan| == 1 && tx.done >= 1 {
      PerformSnoc(store, plan, 0);
      assert Take(plan, 0) == [] && Take(plan, 1) == Take(plan, tx.done);
    } else if tx.done == 0 {
      assert Take(plan, 0) == [];
    } else if plan == [] {
      assert Take(plan, tx.done) == [];
    }
  }

  /**
    Between two stores the rows are the old ones and the added ones, in order, less exactly the oldest d; the newest is
    there, distinct deliveries stay distinct, and a comment that was listed stays the one that is listed.
   */
  ghost predicate KeysFollow(env: Env, store: Store, added: seq<RowKey>, d: int, after: Store) {
    var all := StoreKeys(env, store) + added;
    && Tracked(env, after)
    && 0 <= d <= |all| && (all != [] ==> d < |all|)
    && StoreKeys(env, after) == all[d..]
    && (UniqueDeliveries(StoreKeys(env, store)) ==> UniqueDeliveries(StoreKeys(env, after)))
    && (Listing(store, env.target) != [] ==> Listing(after, env.target) == Listing(store, env.target))
  }

  lemma KeysFollowCompose(env: Env, a: Store, earlier: seq<RowKey>, x: int, b: Store, latest: seq<RowKey>, y: int, c: Store)
    requires KeysFollow(env, a, earlier, x, b) && KeysFollow(env, b, latest, y, c)
    ensures KeysFollow(env, a, earlier + latest, x + y, c)
  {
    hide Tracked, StoreKeys, UniqueDeliveries, Listing;
    var keys := StoreKeys(env, a);
    DropTwice(keys + earlier, x, latest, y);
    assert keys + earlier + latest == keys + (earlier + latest);
  }

  /** What the single write of an operation does, when it makes one. */
  lemma TxCases(env: Env, store: Store, tx: Tx)
    requires Tracked(env, store)
    ensures var decision := Decide(env, tx.op, Existing(env, store));
            var ids := Listing(store, env.target);
            if decision.Replace? && tx.done >= 1
            then RunTx(env, store, tx) == Perform(store, if ids == [] then Add(decision.body) else Put(ids[0], decision.body))
                 && TxAdds(env, store, tx) == Additions(env, tx.op, Existing(env, store))
                 && TxDrops(env, store, tx) == TableDrops(env, Wanted(env, tx.op, Existing(env, store)))
            else RunTx(env, store, tx) == store && TxAdds(env, store, tx) == [] && TxDrops(env, store, tx) == 0
  {
    hide Listing, Plan, Decide, RunTx, Additions, Perform, Existing, Tracked, Wanted, TableDrops;
    TrackedPlan(env, tx.op, store);
    RunTxOne(env, store, tx);
  }

  lemma TrackedCases(env: Env, store: Store)
    requires Tracked(env, store)
    ensures store.Valid()
    ensures var ids := Listing(store, env.target);
            if ids == [] then Existing(env, store) == None && StoreKeys(env, store) == []
            else ids == [ids[0]] && Existing(env, store) == Some(BodyAt(store.bodies, ids[0]))
                 && Good(BodyAt(store.bodies, ids[0]), env.target)
                 && StoreKeys(env, store) == Keys(RowsIn(BodyAt(store.bodies, ids[0])))
  {
    hide Listing, Good, BodyAt, Keys, RowsIn;
  }

  lemma FollowsKeys(env: Env, store: Store, added: seq<RowKey>, d: int, after: Store, text: string)
    requires Follows(env, StoreKeys(env, store), added, d, text)
    requires Tracked(env, after) && Existing(env, after) == Some(text)
    requires Listing(store, env.target) != [] ==> Listing(after, env.target) == Listing(store, env.target)
    ensures KeysFollow(env, store, added, d, after)
  {
    hide Good, Existing, Tracked, UniqueDeliveries, RowsIn, Keys, Listing;
  }

  /** The rows one logged operation wrote before trimming. */
  function TxTable(env: Env, store: Store, tx: Tx): Table { Wanted(env, tx.op, Existing(env, store)) }

  /**
    Rows are dropped only by the caps: the table was made of the old rows and the added one, and either 200 newer rows
    stand, or the text with one row more would exceed 60,000 characters.
   */
  ghost predicate DroppedForCaps(env: Env, store: Store, tx: Tx) {
    var table, d := TxTable(env, store, tx), TxDrops(env, store, tx);
    d != 0 ==>
      && Keys(table.rows) == StoreKeys(env, store) + TxAdds(env, store, tx)
      && 0 < d < |table.rows|
      && (|table.rows| - d == MAX_AUDIT_ROWS || Oversize(env.scrub, table.created, table.rows[d - 1..], env.target))
  }

  lemma CapsDropped(env: Env, store: Store, tx: Tx)
    requires tx.done >= 1 && Decide(env, tx.op, Existing(env, store)).Replace?
    requires Outcome(env, tx.op, Existing(env, store), StoreKeys(env, store))
    ensures DroppedForCaps(env, store, tx)
  {
    hide Decide, Existing, StoreKeys, Wanted, Additions, Follows, Dropped, Keys, Oversize, Fit;
    var table := Wanted(env, tx.op, Existing(env, store));
    TrimmingIsMinimal(env.scrub, table.created, table.rows, env.target);
  }

  lemma NothingDropped(env: Env, store: Store, tx: Tx)
    requires TxDrops(env, store, tx) == 0
    ensures DroppedForCaps(env, store, tx)
  {
    hide TxDrops;
  }

  /** One operation: its rows follow, and what is missing was dropped by the caps. */
  lemma TxFollows(env: Env, store: Store, tx: Tx)
    requires env.Valid() && OpOk(tx.op) && Tracked(env, store)
    ensures KeysFollow(env, store, TxAdds(env, store, tx), TxDrops(env, store, tx), RunTx(env, store, tx))
    ensures DroppedForCaps(env, store, tx)
  {
    hide *;
    TxCases(env, store, tx);
    TrackedCases(env, store);
    var ids, decision := Listing(store, env.target), Decide(env, tx.op, Existing(env, store));
    if decision.Replace? && tx.done >= 1 {
      if ids == [] {
        CreateFollows(env, tx.op);
      } else {
        DecideFollows(env, tx.op, BodyAt(store.bodies, ids[0]));
      }
      OutcomeIs(env, tx.op, Existing(env, store), StoreKeys(env, store));
      FollowsParts(env, StoreKeys(env, store), TxAdds(env, store, tx), TxDrops(env, store, tx), decision.body);
      if ids == [] {
        TrackedAdd(env, store, decision.body);
      } else {
        TrackedPut(env, store, ids[0], decision.body);
      }
      FollowsKeys(env, store, TxAdds(env, store, tx), TxDrops(env, store, tx), RunTx(env, store, tx), decision.body);
      CapsDropped(env, store, tx);
    } else {
      NothingFollows(env, store);
      NothingDropped(env, store, tx);
    }
  }

  lemma NothingFollows(env: Env, store: Store)
    requires Tracked(env, store)
    ensures KeysFollow(env, store, [], 0, store)
  {
    hide Tracked, StoreKeys, UniqueDeliveries, Listing;
    assert StoreKeys(env, store) + [] == StoreKeys(env, store);
    assert StoreKeys(env, store)[0..] == StoreKeys(env, store);
  }

  /** Every drop of a log was one of the caps. */
  ghost predicate CapsOnly(env: Env, init: Store, log: seq<Tx>) {
    forall k :: 0 <= k < |log| ==> DroppedForCaps(env, Serial(env, init, log[..k]), log[k])
  }

  /** The caps never dropped anything. */
  predicate NoDrops(env: Env, init: Store, log: seq<Tx>) {
    forall k :: 0 <= k < |log| ==> TxDrops(env, Serial(env, init, log[..k]), log[k]) == 0
  }

  /**
    Run one after the other, the operations keep one comment whose rows are the old rows and the added rows, in
    order, less exactly the oldest ones that the caps dropped, each drop for one of the two caps; without a drop
    nothing is missing. The newest row is always there, a listed comment stays listed, and a delivery that is still
    there is never added again.
   */
  lemma {:induction false} RowsSurvive(env: Env, init: Store, log: seq<Tx>)
    requires env.Valid() && Tracked(env, init) && forall k :: 0 <= k < |log| ==> OpOk(log[k].op)
    ensures KeysFollow(env, init, Added(env, init, log), Lost(env, init, log), Serial(env, init, log))
    ensures CapsOnly(env, init, log)
    ensures NoDrops(env, init, log) ==> StoreKeys(env, Serial(env, init, log)) == StoreKeys(env, init) + Added(env, init, log)
  {
    NoDropsNoLoss(env, init, log);
    hide Tracked, RunTx, OpOk, UniqueDeliveries, StoreKeys, TxAdds, TxDrops, Env.Valid, DroppedForCaps, KeysFollow, NoDrops;
    if log == [] {
      NothingFollows(env, init);
    } else {
      var rest, tx := log[..|log| - 1], log[|log| - 1];
      var before, after := Serial(env, init, rest), Serial(env, init, log);
      RowsSurvive(env, init, rest);
      KeysFollowTracked(env, init, Added(env, init, rest), Lost(env, init, rest), before);
      TxFollows(env, before, tx);
      KeysFollowCompose(env, init, Added(env, init, rest), Lost(env, init, rest), before, TxAdds(env, before, tx), TxDrops(env, before, tx), after);
      forall k | 0 <= k < |log| ensures DroppedForCaps(env, Serial(env, init, log[..k]), log[k]) {
        if k < |rest| {
          assert rest[..k] == log[..k] && rest[k] == log[k];
        }
      }
    }
    KeysFollowParts(env, init, Added(env, init, log), Lost(env, init, log), Serial(env, init, log));
  }

  lemma {:induction false} NoDropsNoLoss(env: Env, init: Store, log: seq<Tx>)
    ensures NoDrops(env, init, log) ==> Lost(env, init, log) == 0
  {
    if log != [] && NoDrops(env, init, log) {
      hide TxDrops, Serial;
      var rest := log[..|log| - 1];
      forall k | 0 <= k < |rest| ensures TxDrops(env, Serial(env, init, rest[..k]), rest[k]) == 0 {
        assert rest[..k] == log[..k] && rest[k] == log[k];
      }
      NoDropsNoLoss(env, init, rest);
      assert TxDrops(env, Serial(env, init, log[..|log| - 1]), log[|log| - 1]) == 0;
    }
  }

  lemma KeysFollowTracked(env: Env, store: Store, added: seq<RowKey>, d: int, after: Store)
    requires KeysFollow(env, store, added, d, after)
    ensures Tracked(env, after)
  {
    hide Tracked, StoreKeys, UniqueDeliveries, Listing;
  }

  // ---------------------------------------------------------------------------------------------
  // Why a write must land within its lease
  // ---------------------------------------------------------------------------------------------

  lemma NewInSuffix(all: seq<RowKey>, d: nat, delivery: Option<string>)
    requires d <= |all| && NewDelivery(all, delivery)
    ensures NewDelivery(all[d..], delivery)
  {
    assert forall k :: 0 <= k < |all[d..]| ==> all[d..][k] == all[d + k];
  }

  lemma NewInBoth(a: seq<RowKey>, b: seq<RowKey>, delivery: Option<string>)
    requires NewDelivery(a, delivery) && NewDelivery(b, delivery)
    ensures NewDelivery(a + b, delivery)
  {}

  lemma PutTwice(store: Store, id: nat, a: string, b: string)
    requires id in store.bodies
    ensures PerformAll(store, [Put(id, a)] + [Put(id, b)]) == Perform(store, Put(id, b)) == PerformAll(store, [Put(id, b)])
  {
    var both := [Put(id, a)] + [Put(id, b)];
    assert both[..1] == [Put(id, a)] && both[..1][..0] == [] && [Put(id, b)][..0] == [];
    assert store.bodies[id := a][id := b] == store.bodies[id := b];
    assert PerformAll(store, both[..1]) == Perform(store, Put(id, a));
  }

  lemma RecordAdds(env: Env, entry: Entry, existing: Option<string>, delivery: Option<string>)
    requires entry.delivery != delivery
    ensures NewDelivery(Additions(env, Record(entry), existing), delivery)
  {
    hide RowsIn, Keys;
  }

  /**
    The premise about leases is needed: two operations that both read the comment before either wrote lose the row
    of the one whose write lands first, although it is acknowledged.
   */
  lemma LateWriteErases(env: Env, store: Store, first: Entry, second: Entry, id: string)
    requires env.Valid() && OpOk(Record(first)) && OpOk(Record(second)) && Tracked(env, store) && Listing(store, env.target) != []
    requires first.delivery == Some(id) && second.delivery != Some(id) && NewDelivery(StoreKeys(env, store), Some(id))
    requires Decide(env, Record(first), Existing(env, store)).Replace? && Decide(env, Record(second), Existing(env, store)).Replace?
    ensures var both := PerformAll(store, Plan(env, Record(first), store) + Plan(env, Record(second), store));
            NewDelivery(StoreKeys(env, both), Some(id))
  {
    hide *;
    var ids := Listing(store, env.target);
    TrackedPlan(env, Record(first), store);
    TrackedPlan(env, Record(second), store);
    TrackedCases(env, store);
    ListingIs(store, env.target);
    PutTwice(store, ids[0], Decide(env, Record(first), Existing(env, store)).body, Decide(env, Record(second), Existing(env, store)).body);
    var tx := Tx(0, Record(second), 1);
    RunTxOne(env, store, tx);
    TxCases(env, store, tx);
    TxFollows(env, store, tx);
    KeysFollowParts(env, store, TxAdds(env, store, tx), TxDrops(env, store, tx), RunTx(env, store, tx));
    RecordAdds(env, second, Existing(env, store), Some(id));
    NewInBoth(StoreKeys(env, store), TxAdds(env, store, tx), Some(id));
    NewInSuffix(StoreKeys(env, store) + TxAdds(env, store, tx), TxDrops(env, store, tx), Some(id));
  }

  lemma KeysFollowParts(env: Env, store: Store, added: seq<RowKey>, d: int, after: Store)
    requires KeysFollow(env, store, added, d, after)
    ensures var all := StoreKeys(env, store) + added;
            0 <= d <= |all| && StoreKeys(env, after) == all[d..] && (d == 0 ==> StoreKeys(env, after) == all)
  {
    hide Tracked, StoreKeys, UniqueDeliveries, Listing;
    var all := StoreKeys(env, store) + added;
    assert all[0..] == all;
  }
}
