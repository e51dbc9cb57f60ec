/**
  Nothing that identifies a row is lost, whatever comments a run starts with: one, none, or several that an earlier
  stopped merge left behind. What a row is identified by is its delivery, or the id that merging gives to a row that
  had none.
 */
module AuditConservation {
  import opened Wrappers
  import opened AuditCodec
  import opened AuditComment
  import opened AuditMerge
  import opened AuditStore
  import opened AuditOps
  import opened AuditRecorders
  import opened AuditHistory
  import opened AuditOutcomes

  predicate Marked(key: RowKey) { key.delivery.Some? || key.legacy.Some? }

  function MarkOf(key: RowKey): Identity
    requires Marked(key)
  {
    if key.delivery.Some? then Delivery(key.delivery.value) else Legacy(key.legacy.value)
  }

  /** The identities of the rows that have one. */
  function Marks(keys: seq<RowKey>): set<Identity> { set k | 0 <= k < |keys| && Marked(keys[k]) :: MarkOf(keys[k]) }

  lemma MarksConcat(a: seq<RowKey>, b: seq<RowKey>)
    ensures Marks(a + b) == Marks(a) + Marks(b)
  {
    hide MarkOf;
    var all := a + b;
    forall id | id in Marks(a) ensures id in Marks(all) {
      var k :| 0 <= k < |a| && Marked(a[k]) && MarkOf(a[k]) == id;
      assert all[k] == a[k];
    }
    forall id | id in Marks(b) ensures id in Marks(all) {
      var k :| 0 <= k < |b| && Marked(b[k]) && MarkOf(b[k]) == id;
      assert all[|a| + k] == b[k];
    }
    forall id | id in Marks(all) ensures id in Marks(a) + Marks(b) {
      var k :| 0 <= k < |all| && Marked(all[k]) && MarkOf(all[k]) == id;
      assert all[k] == if k < |a| then a[k] else b[k - |a|];
    }
  }

  lemma MarksAreIdentities(rows: seq<Row>)
    requires Identified(rows)
    ensures Marks(Keys(rows)) == Identities(rows)
  {
    var keys := Keys(rows);
    forall k | 0 <= k < |rows| ensures Marked(keys[k]) && MarkOf(keys[k]) == IdentityOf(rows[k]) {
    }
    forall id | id in Identities(rows) ensures id in Marks(keys) {
      var k :| 0 <= k < |rows| && IdentityOf(rows[k]) == id;
      assert Marked(keys[k]);
    }
  }

  function First(keys: seq<RowKey>, d: int): seq<RowKey> { if 0 <= d <= |keys| then keys[..d] else [] }

  // ---------------------------------------------------------------------------------------------
  // What the comments carry
  // ---------------------------------------------------------------------------------------------

  /** The identities of one comment's rows, once those without one are given theirs. */
  function Carried(bodies: Comments, id: nat, derive: Deriver): set<Identity> {
    Identities(Migrate(RowsIn(BodyAt(bodies, id)), id, derive))
  }

  function CarriedBy(bodies: Comments, ids: seq<nat>, derive: Deriver): set<Identity> {
    if ids == [] then {} else Carried(bodies, ids[0], derive) + CarriedBy(bodies, ids[1..], derive)
  }

  /**
    What the listed comments carry. Several comments are about to be merged, which identifies every row; in a single
    one, rows without an identity stay as they are (and are followed by their place, see RowsSurvive).
   */
  function Held(env: Env, store: Store): set<Identity> {
    var ids := Listing(store, env.target);
    if |ids| > 1 then CarriedBy(store.bodies, ids, env.derive)
    else if |ids| == 1 && Good(BodyAt(store.bodies, ids[0]), env.target) then Marks(StoreKeys(env, store))
    else {}
  }

  ghost predicate DeriverOk(derive: Deriver) { forall id: nat, n: nat :: HiddenIdOk(derive(id, n)) }

  /** The text a merge of the listed comments writes. */
  function MergeResult(env: Env, store: Store): Result<string, AuditError> {
    var ids := Listing(store, env.target);
    if ids == [] then Err(NoMarkerLine) else TextFor(env.scrub, store.bodies, ids, env.derive, env.target)
  }

  /** The rows the merge wants to write, before they are trimmed. */
  function MergeTable(env: Env, store: Store): Table {
    var ids := Listing(store, env.target);
    if ids == [] then Table("", [])
    else Table(Created(store.bodies, ids), Canonical(Gathered(Sources(store.bodies, ids), env.derive)))
  }

  /** The comments when all of the merge's writes have happened. */
  function Collapsed(env: Env, store: Store): Store {
    var ids := Listing(store, env.target);
    if ids == [] || MergeResult(env, store).Err? then store
    else store.(bodies := Half(store.bodies, ids, MergeResult(env, store).value, |ids| - 1))
  }

  /** What is left of an operation after the merge it starts with. */
  function Later(env: Env, store: Store, tx: Tx): Tx {
    var n := |Listing(store, env.target)|;
    Tx(tx.who, tx.op, if tx.done > n then tx.done - n else 0)
  }

  /** A row added to a comment of another pull request starts a new table, whatever that comment held. */
  function StrangerAdds(env: Env, store: Store, tx: Tx): seq<RowKey> {
    if tx.done >= 1 && Decide(env, tx.op, Existing(env, store)).Replace? then
      match tx.op
      case Record(entry) => [EntryKey(entry)]
      case SetStatus(_, _, command, _) => if command.Some? then [EntryKey(StatusEntry(tx.op))] else []
    else []
  }

  function MarksAdded(env: Env, store: Store, tx: Tx): set<Identity> {
    if |Listing(store, env.target)| > 1 then
      if MergeResult(env, store).Err? then {} else Marks(TxAdds(env, Collapsed(env, store), Later(env, store, tx)))
    else if Tracked(env, store) then Marks(TxAdds(env, store, tx))
    else Marks(StrangerAdds(env, store, tx))
  }

  /** The rows a trimming leaves out. */
  function Trimmed(env: Env, table: Table): seq<Row> {
    if 0 <= TableDrops(env, table) <= |table.rows| then table.rows[..TableDrops(env, table)] else []
  }

  function OneDropped(env: Env, store: Store, tx: Tx): set<Identity> {
    Marks(First(StoreKeys(env, store) + TxAdds(env, store, tx), TxDrops(env, store, tx)))
  }

  function MarksDropped(env: Env, store: Store, tx: Tx): set<Identity> {
    if |Listing(store, env.target)| > 1 then
      if MergeResult(env, store).Err? || tx.done == 0 then {}
      else Identities(Trimmed(env, MergeTable(env, store))) + OneDropped(env, Collapsed(env, store), Later(env, store, tx))
    else if Tracked(env, store) then OneDropped(env, store, tx)
    else {}
  }

  /** What a merge drops, it drops for the caps: 200 newer rows stand, or one row more would exceed 60,000 characters. */
  ghost predicate MergeForCaps(env: Env, store: Store) {
    var table, d := MergeTable(env, store), TableDrops(env, MergeTable(env, store));
    && 0 <= d <= |table.rows| && (table.rows != [] ==> d < |table.rows|)
    && Trimmed(env, table) == table.rows[..d]
    && (d > 0 ==> |table.rows| - d == MAX_AUDIT_ROWS || Oversize(env.scrub, table.created, table.rows[d - 1..], env.target))
  }

  lemma MergeDropsForCaps(env: Env, store: Store)
    ensures MergeForCaps(env, store)
  {
    hide MergeTable, Dropped, Fit, Oversize, LastRows;
    var table := MergeTable(env, store);
    TrimmingIsMinimal(env.scrub, table.created, table.rows, env.target);
  }

  /** Everything that one operation drops, in its merge and in its own write, it drops for the caps. */
  ghost predicate DropsForCaps(env: Env, store: Store, tx: Tx) {
    if |Listing(store, env.target)| > 1 then
      MergeResult(env, store).Err? || tx.done == 0
      || (MergeForCaps(env, store) && DroppedForCaps(env, Collapsed(env, store), Later(env, store, tx)))
    else Tracked(env, store) ==> DroppedForCaps(env, store, tx)
  }

  lemma DropsForCapsIs(env: Env, store: Store, tx: Tx)
    requires |Listing(store, env.target)| <= 1 ==> Tracked(env, store) ==> DroppedForCaps(env, store, tx)
    requires |Listing(store, env.target)| > 1 && MergeResult(env, store).Ok? && tx.done > 0 ==>
               MergeForCaps(env, store) && DroppedForCaps(env, Collapsed(env, store), Later(env, store, tx))
    ensures DropsForCaps(env, store, tx)
  {
    hide Listing, Tracked, DroppedForCaps, MergeResult, MergeForCaps, Collapsed, Later;
  }

  /** Nothing is lost but what was dropped, and nothing is there that was not there before or added. */
  ghost predicate Conserves(before: set<Identity>, added: set<Identity>, dropped: set<Identity>, after: set<Identity>) {
    before + added <= after + dropped && after <= before + added
  }

  // ---------------------------------------------------------------------------------------------
  // One comment or none
  // ---------------------------------------------------------------------------------------------

  lemma HeldTracked(env: Env, store: Store)
    requires Tracked(env, store)
    ensures Held(env, store) == Marks(StoreKeys(env, store))
  {
    hide Listing, Good, Keys, RowsIn, BodyAt;
    assert Listing(store, env.target) == [] ==> StoreKeys(env, store) == [];
  }

  lemma TrackedConserves(env: Env, store: Store, tx: Tx)
    requires env.Valid() && OpOk(tx.op) && Tracked(env, store)
    ensures Conserves(Held(env, store), Marks(TxAdds(env, store, tx)), OneDropped(env, store, tx), Held(env, RunTx(env, store, tx)))
  {
    hide *;
    var adds, d, after := TxAdds(env, store, tx), TxDrops(env, store, tx), RunTx(env, store, tx);
    TxFollows(env, store, tx);
    KeysFollowTracked(env, store, adds, d, after);
    KeysFollowParts(env, store, adds, d, after);
    HeldTracked(env, store);
    HeldTracked(env, after);
    var all := StoreKeys(env, store) + adds;
    assert all == all[..d] + all[d..];
    MarksConcat(StoreKeys(env, store), adds);
    MarksConcat(all[..d], all[d..]);
    OneDroppedIs(env, store, tx);
    ConservesIs(Held(env, store), Marks(adds), OneDropped(env, store, tx), Held(env, after));
  }

  lemma OneDroppedIs(env: Env, store: Store, tx: Tx)
    requires 0 <= TxDrops(env, store, tx) <= |StoreKeys(env, store) + TxAdds(env, store, tx)|
    ensures OneDropped(env, store, tx) == Marks((StoreKeys(env, store) + TxAdds(env, store, tx))[..TxDrops(env, store, tx)])
  {
    hide StoreKeys, TxAdds, TxDrops, Marks;
  }

  lemma ConservesIs(before: set<Identity>, added: set<Identity>, dropped: set<Identity>, after: set<Identity>)
    ensures Conserves(before, added, dropped, after) <==> before + added <= after + dropped && after <= before + added
  {}

  /** A listed comment that is not readable as this pull request's: either nothing is written, or a new table starts. */
  lemma StrangerWrites(env: Env, op: Op, body: string)
    requires env.Valid() && OpOk(op) && Listed(body, env.target) && !Good(body, env.target)
    requires Decide(env, op, Some(body)).Replace?
    ensures op.SetStatus? ==> op.command.Some?
    ensures var entry := if op.Record? then op.entry else StatusEntry(op);
            var after := Decide(env, op, Some(body)).body;
            Good(after, env.target) && Keys(RowsIn(after)) == [EntryKey(entry)]
  {
    hide *;
    ListedParts(body, env.target);
    EnvParts(env);
    if op.Record? {
      RecordWants(env, op.entry, Some(body));
      RecordReplaces(env, op.entry, Some(body));
      StrangerAppend(env, body, op.entry);
    } else {
      StrangerStatus(env, op, body);
      StatusEntryOk(op);
      StrangerAppend(env, body, StatusEntry(op));
    }
  }

  lemma ListedParts(body: string, target: Target)
    requires Listed(body, target)
    ensures Contains(body, Marker(target)) && IsAudit(body) && body != ""
  {
    EmptyIsNotAudit();
    hide Contains, Marker, IsAudit;
  }

  lemma GoodIs(body: string, target: Target)
    ensures Good(body, target) <==> body != "" && IsExpected(body, target) && Contains(body, Marker(target))
                                    && ParseCreated(Text.SplitLines(body)).Ok? && ParseRows(body).Ok?
  {
    hide IsExpected, Contains, Marker, ParseCreated, ParseRows, Text.SplitLines;
  }

  lemma StrangerAppend(env: Env, body: string, entry: Entry)
    requires env.Valid() && EntryOk(entry) && body != "" && Contains(body, Marker(env.target)) && !Good(body, env.target)
    requires Append(env.scrub, body, entry, env.target).Ok?
    ensures var after := Append(env.scrub, body, entry, env.target).value;
            Good(after, env.target) && Keys(RowsIn(after)) == [EntryKey(entry)]
  {
    hide *;
    EnvParts(env);
    GoodIs(body, env.target);
    if IsExpected(body, env.target) {
      AppendReads(env, body, entry);
    }
    var after := Append(env.scrub, body, entry, env.target).value;
    AppendStarts(env.scrub, body, entry, env.target);
    AppendStartsBy(env.scrub, body, entry, env.target);
    FinishListed(env.scrub, entry.when, [NewRow(env.scrub, entry)], env.target);
    GoodIs(after, env.target);
    GoodParts(after, env.target);
    NewRowKey(env.scrub, entry);
    var all := [NewRow(env.scrub, entry)];
    assert all[0..] == all;
    DroppedKeys(env.scrub, all, 0);
    OneKey(NewRow(env.scrub, entry));
    assert [EntryKey(entry)][0..] == [EntryKey(entry)];
  }

  lemma OneKey(row: Row)
    ensures Keys([row]) == [KeyOf(row)]
  {}

  lemma AppendReads(env: Env, body: string, entry: Entry)
    requires body != "" && IsExpected(body, env.target) && Append(env.scrub, body, entry, env.target).Ok?
    ensures ParseCreated(Text.SplitLines(body)).Ok? && ParseRows(body).Ok?
  {
    hide IsExpected, ParseCreated, ParseRows, Finish, NewRow, StatusOk, HiddenIdOk, Text.SplitLines, KnownDelivery;
  }

  lemma StrangerStatus(env: Env, op: Op, body: string)
    requires op.SetStatus? && Decide(env, op, Some(body)).Replace? && Contains(body, Marker(env.target))
    requires body != "" && !Good(body, env.target)
    ensures op.command.Some? && Append(env.scrub, body, StatusEntry(op), env.target) == Ok(Decide(env, op, Some(body)).body)
  {
    hide *;
    GoodIs(body, env.target);
    StatusReplaces(env, op, body);
    UpdateReads(env, body, op.delivery, op.status);
  }

  lemma UpdateReads(env: Env, body: string, delivery: string, status: string)
    requires UpdateStatus(env.scrub, body, delivery, status, env.target).Ok?
    ensures IsExpected(body, env.target) ==> ParseCreated(Text.SplitLines(body)).Ok? && ParseRows(body).Ok?
    ensures !IsExpected(body, env.target) ==> UpdatedText(env, body, delivery, status) == body
  {
    hide IsExpected, ParseCreated, ParseRows, Finish, Restamp, StatusOk, HiddenIdOk, Text.SplitLines;
  }

  lemma StrangerCases(env: Env, store: Store)
    requires store.Valid() && !Tracked(env, store) && |Listing(store, env.target)| <= 1
    ensures var ids := Listing(store, env.target);
            && ids == [ids[0]] && ids[0] in store.bodies && Listed(BodyAt(store.bodies, ids[0]), env.target)
            && !Good(BodyAt(store.bodies, ids[0]), env.target)
            && Existing(env, store) == Some(BodyAt(store.bodies, ids[0])) && Held(env, store) == {}
  {
    ListingIs(store, env.target);
    hide Listing, Good, Listed;
    var ids := Listing(store, env.target);
    assert ids == [ids[0]] && ids[0] in ids;
  }

  lemma FinalWritesAre(env: Env, op: Op, id: nat, existing: Option<string>)
    ensures FinalWrites(env, op, Some(id), existing) ==
            if Decide(env, op, existing).Replace? then [Put(id, Decide(env, op, existing).body)] else []
  {
    hide Decide;
  }

  lemma StrangerConserves(env: Env, store: Store, tx: Tx)
    requires env.Valid() && OpOk(tx.op) && store.Valid() && !Tracked(env, store) && |Listing(store, env.target)| <= 1
    ensures RunTx(env, store, tx).Valid()
    ensures Conserves(Held(env, store), Marks(StrangerAdds(env, store, tx)), {}, Held(env, RunTx(env, store, tx)))
  {
    hide *;
    StrangerCases(env, store);
    var id := Listing(store, env.target)[0];
    var body, decision := BodyAt(store.bodies, id), Decide(env, tx.op, Existing(env, store));
    PlanIs(env, tx.op, store);
    FinalWritesAre(env, tx.op, id, Some(body));
    RunTxOne(env, store, tx);
    StrangerAddsAre(env, store, tx);
    if tx.done >= 1 && decision.Replace? {
      StrangerWrites(env, tx.op, body);
      TrackedPut(env, store, id, decision.body);
      PutShape(store, id, decision.body);
      HeldTracked(env, RunTx(env, store, tx));
      StoreKeysOf(env, RunTx(env, store, tx), decision.body);
    } else {
      NoMarks();
    }
    ConservesIs(Held(env, store), Marks(StrangerAdds(env, store, tx)), {}, Held(env, RunTx(env, store, tx)));
  }

  lemma NoMarks()
    ensures Marks([]) == {}
  {}

  lemma StoreKeysOf(env: Env, store: Store, body: string)
    requires Existing(env, store) == Some(body)
    ensures StoreKeys(env, store) == Keys(RowsIn(body))
  {
    hide Existing, Keys, RowsIn;
  }

  lemma StrangerAddsAre(env: Env, store: Store, tx: Tx)
    ensures StrangerAdds(env, store, tx) ==
            if tx.done >= 1 && Decide(env, tx.op, Existing(env, store)).Replace? && (tx.op.Record? || tx.op.command.Some?)
            then [EntryKey(if tx.op.Record? then tx.op.entry else StatusEntry(tx.op))] else []
  {
    hide Decide, Existing, EntryKey;
  }

  // ---------------------------------------------------------------------------------------------
  // Several comments
  // ---------------------------------------------------------------------------------------------

  lemma {:induction false} CarriedRead(bodies: Comments, ids: seq<nat>, derive: Deriver)
    requires ReadSources(bodies, ids).Ok?
    ensures CarriedBy(bodies, ids, derive) == Identities(Gathered(ReadSources(bodies, ids).value, derive))
  {
    hide ParseRows, BodyAt, Migrate, Identities;
    if ids == [] {
      EmptyRows();
    } else {
      var sources := ReadSources(bodies, ids).value;
      assert sources[1..] == ReadSources(bodies, ids[1..]).value;
      CarriedRead(bodies, ids[1..], derive);
      IdentitiesConcat(Migrate(sources[0].rows, sources[0].id, derive), Gathered(sources[1..], derive));
    }
  }

  lemma {:induction false} CarriedSame(bodies: Comments, later: Comments, ids: seq<nat>, derive: Deriver)
    requires forall id :: id in ids ==> BodyAt(bodies, id) == BodyAt(later, id)
    ensures CarriedBy(later, ids, derive) == CarriedBy(bodies, ids, derive)
  {
    hide BodyAt, RowsIn, Migrate, Identities;
    if ids != [] {
      assert ids[0] in ids;
      CarriedSame(bodies, later, ids[1..], derive);
    }
  }

  lemma {:induction false} CarriedSuffix(bodies: Comments, ids: seq<nat>, n: nat, derive: Deriver)
    requires n <= |ids|
    ensures CarriedBy(bodies, ids[n..], derive) <= CarriedBy(bodies, ids, derive)
  {
    hide Carried;
    if n == 0 {
      assert ids[0..] == ids;
    } else {
      CarriedSuffix(bodies, ids[1..], n - 1, derive);
      assert ids[1..][n - 1..] == ids[n..];
    }
  }

  /** What the first comment holds after the merge has rewritten it: everything the comments carried, less what the caps dropped. */
  lemma MergeHolds(env: Env, store: Store)
    requires env.Valid() && DeriverOk(env.derive) && MergeResult(env, store).Ok?
    ensures var ids, text := Listing(store, env.target), MergeResult(env, store).value;
            var dropped := Identities(Trimmed(env, MergeTable(env, store)));
            && ids != [] && Good(text, env.target) && Identified(RowsIn(text))
            && CarriedBy(store.bodies, ids, env.derive) == dropped + Identities(RowsIn(text))
  {
    hide *;
    EnvParts(env);
    MergingIs(env, store);
    var ids, text := Listing(store, env.target), MergeResult(env, store).value;
    TextForIs(env.scrub, store.bodies, ids, env.derive, env.target);
    var created, sources := Created(store.bodies, ids), Sources(store.bodies, ids);
    CarriedRead(store.bodies, ids, env.derive);
    MergeKeepsIdentities(sources, env.derive);
    var rows := Canonical(Gathered(sources, env.derive));
    var d := Dropped(env.scrub, created, rows, env.target);
    KeeperReadsBack(env.scrub, created, sources, env.derive, env.target);
    MergedIs(env.scrub, created, sources, env.derive, env.target);
    FinishListed(env.scrub, created, rows, env.target);
    TrimmingIsMinimal(env.scrub, created, rows, env.target);
    ExpectedNotEmpty(env.target);
    GoodIs(text, env.target);
    GoodParts(text, env.target);
    assert rows == rows[..d] + rows[d..];
    IdentitiesConcat(rows[..d], rows[d..]);
    GatheredOk(sources, env.derive);
    CanonicalIs(Gathered(sources, env.derive));
    CanonicalOk(Gathered(sources, env.derive), {});
    SuffixProperties(rows, d);
    WrittenIdentities(env.scrub, rows[d..]);
    TrimmedIs(env, Table(created, rows));
  }

  lemma MergingIs(env: Env, store: Store)
    requires MergeResult(env, store).Ok?
    ensures var ids := Listing(store, env.target);
            && ids != [] && MergeResult(env, store) == TextFor(env.scrub, store.bodies, ids, env.derive, env.target)
            && MergeTable(env, store) == Table(Created(store.bodies, ids), Canonical(Gathered(Sources(store.bodies, ids), env.derive)))
            && Collapsed(env, store) == store.(bodies := Half(store.bodies, ids, MergeResult(env, store).value, |ids| - 1))
            && (DeriverOk(env.derive) ==> forall id: nat, n: nat :: HiddenIdOk(env.derive(id, n)))
  {
    hide TextFor, Created, Canonical, Gathered, Sources, Listing, Half, HiddenIdOk;
  }

  lemma TrimmedIs(env: Env, table: Table)
    ensures var d := Dropped(env.scrub, table.created, table.rows, env.target);
            0 <= d <= |table.rows| ==> Trimmed(env, table) == table.rows[..d]
  {
    hide Dropped;
  }

  lemma {:induction false} AscendingSame(a: seq<nat>, b: seq<nat>)
    requires Ascends(a) && Ascends(b)
    requires forall x :: x in a <==> x in b
    ensures a == b
  {
    assert a != [] ==> a[0] in a;
    assert b != [] ==> b[0] in b;
    if a != [] {
      assert a[0] == b[0];
      forall x ensures x in a[1..] <==> x in b[1..] {
        assert x in a <==> x == a[0] || x in a[1..];
        assert x in b <==> x == b[0] || x in b[1..];
        assert a[0] !in a[1..] && b[0] !in b[1..];
      }
      AscendingSame(a[1..], b[1..]);
      assert a == [a[0]] + a[1..] && b == [b[0]] + b[1..];
    }
  }

  /** The listing in the middle of a merge: the first comment and those not deleted yet. */
  lemma HalfListing(store: Store, text: string, n: nat, target: Target)
    requires store.Valid() && 1 <= n <= |Listing(store, target)| && Listed(text, target)
    ensures var ids := Listing(store, target);
            var half := store.(bodies := Half(store.bodies, ids, text, n - 1));
            NoRepeats(ids) && half.Valid() && Listing(half, target) == [ids[0]] + ids[n..]
  {
    hide *;
    var ids := Listing(store, target);
    var half := store.(bodies := Half(store.bodies, ids, text, n - 1));
    ListingAscends(store, target);
    ListingIs(store, target);
    assert ids[0] in ids;
    HalfValid(store, ids, text, n - 1);
    ListingAscends(half, target);
    ListingIs(half, target);
    forall id ensures id in Listing(half, target) <==> id in [ids[0]] + ids[n..] {
      HalfMember(store.bodies, ids, text, n, id);
    }
    HeadAscends(ids, n);
    AscendingSame(Listing(half, target), [ids[0]] + ids[n..]);
  }

  lemma ListingAscends(store: Store, target: Target)
    ensures var ids := Listing(store, target); NoRepeats(ids) && Ascends(ids)
  {
    ListToIs(store.bodies, store.next, target);
  }

  predicate Ascends(ids: seq<nat>) { forall i, j :: 0 <= i < j < |ids| ==> ids[i] < ids[j] }

  lemma HeadAscends(ids: seq<nat>, n: nat)
    requires Ascends(ids) && 1 <= n <= |ids|
    ensures Ascends([ids[0]] + ids[n..])
  {
    var all := [ids[0]] + ids[n..];
    assert forall k :: 0 < k < |all| ==> all[k] == ids[n + k - 1];
  }

  lemma HalfValid(store: Store, ids: seq<nat>, text: string, deleted: nat)
    requires store.Valid() && deleted < |ids| && ids[0] in store.bodies
    ensures store.(bodies := Half(store.bodies, ids, text, deleted)).Valid()
  {}

  lemma HalfMember(bodies: Comments, ids: seq<nat>, text: string, n: nat, id: nat)
    requires NoRepeats(ids) && 1 <= n <= |ids|
    ensures var half := Half(bodies, ids, text, n - 1);
            && (id == ids[0] ==> id in half && half[id] == text)
            && (id != ids[0] ==> (id in half <==> id in bodies && id !in ids[1..n]))
            && (id != ids[0] && id in half ==> half[id] == bodies[id])
            && (id in ids <==> id == ids[0] || id in ids[1..n] || id in ids[n..])
            && (id in ids[1..n] ==> id != ids[0] && id !in ids[n..])
            && (id in ids[n..] ==> id != ids[0])
  {
    assert ids == [ids[0]] + ids[1..n] + ids[n..];
  }

  /** The first n writes of a merge. */
  lemma {:induction false} MergePerforms(store: Store, ids: seq<nat>, text: string, n: nat)
    requires 1 <= n <= |ids| && ids[0] in store.bodies
    ensures PerformAll(store, Take(MergeWrites(ids, text), n)) == store.(bodies := Half(store.bodies, ids, text, n - 1))
  {
    hide *;
    var writes := MergeWrites(ids, text);
    MergeWriteAt(ids, text, n - 1);
    PerformSnoc(store, writes, n - 1);
    HalfNext(store, ids, text, n - 1);
    if n == 1 {
      TakeNone(writes);
      PerformNone(store);
    } else {
      MergePerforms(store, ids, text, n - 1);
    }
  }

  lemma TakeNone(writes: seq<Write>)
    ensures Take(writes, 0) == []
  {}

  lemma PerformNone(store: Store)
    ensures PerformAll(store, []) == store
  {}

  lemma MergeWriteAt(ids: seq<nat>, text: string, k: nat)
    requires k < |ids|
    ensures |MergeWrites(ids, text)| == |ids| && MergeWrites(ids, text)[k] == if k == 0 then Put(ids[0], text) else Drop(ids[k])
  {}

  lemma HalfNext(store: Store, ids: seq<nat>, text: string, k: nat)
    requires k < |ids| && ids[0] in store.bodies
    ensures k == 0 ==> Perform(store, Put(ids[0], text)) == store.(bodies := Half(store.bodies, ids, text, 0))
    ensures k > 0 ==>
              Perform(store.(bodies := Half(store.bodies, ids, text, k - 1)), Drop(ids[k])) == store.(bodies := Half(store.bodies, ids, text, k))
  {
    var first := store.bodies[ids[0] := text];
    if k == 0 {
      assert ids[1..1] == [] && first - Members([]) == first;
    } else {
      assert ids[1..k + 1] == ids[1..k] + [ids[k]];
      MembersAppend(ids[1..k], ids[k]);
      hide Members;
      assert (first - Members(ids[1..k])) - {ids[k]} == first - (Members(ids[1..k]) + {ids[k]});
    }
  }

  lemma {:induction false} PerformAllConcat(store: Store, a: seq<Write>, b: seq<Write>)
    ensures PerformAll(store, a + b) == PerformAll(PerformAll(store, a), b)
  {
    if b == [] {
      assert a + b == a;
    } else {
      assert (a + b)[..|a + b| - 1] == a + b[..|b| - 1];
      PerformAllConcat(store, a, b[..|b| - 1]);
      hide Perform;
    }
  }

  lemma TakeConcat(a: seq<Write>, b: seq<Write>, n: nat)
    ensures n <= |a| ==> Take(a + b, n) == Take(a, n)
    ensures n >= |a| ==> Take(a + b, n) == a + Take(b, n - |a|)
  {
    if n >= |a| {
      assert Take(a + b, n) == a + Take(b, n - |a|);
    }
  }

  /** An operation that starts with a merge: part of the merge, or all of it and then the operation on one comment. */
  lemma MultiRun(env: Env, store: Store, tx: Tx)
    requires store.Valid() && |Listing(store, env.target)| > 1 && MergeResult(env, store).Ok? && tx.done >= 1
    requires Good(MergeResult(env, store).value, env.target)
    ensures var ids, text := Listing(store, env.target), MergeResult(env, store).value;
            && (tx.done <= |ids| ==> RunTx(env, store, tx) == store.(bodies := Half(store.bodies, ids, text, tx.done - 1)))
            && Tracked(env, Collapsed(env, store)) && Existing(env, Collapsed(env, store)) == Some(text)
            && (tx.done >= |ids| ==> RunTx(env, store, tx) == RunTx(env, Collapsed(env, store), Later(env, store, tx)))
  {
    hide *;
    var ids, text := Listing(store, env.target), MergeResult(env, store).value;
    var merged := Collapsed(env, store);
    MergingIs(env, store);
    PlanIs(env, tx.op, store);
    GoodListed(text, env.target);
    HalfListing(store, text, |ids|, env.target);
    assert ids[|ids|..] == [] && [ids[0]] + [] == [ids[0]];
    HalfBodies(store.bodies, ids, text, |ids| - 1, ids[0]);
    TrackedBy(env, merged, ids[0], text);
    PlanIs(env, tx.op, merged);
    var merge, last := MergeWrites(ids, text), FinalWrites(env, tx.op, Some(ids[0]), Some(text));
    MergeWritesSize(ids, text);
    RunTxIs(env, store, tx);
    RunTxIs(env, merged, Later(env, store, tx));
    TakeConcat(merge, last, tx.done);
    if tx.done <= |ids| {
      MergePerforms(store, ids, text, tx.done);
    }
    if tx.done >= |ids| {
      MergePerforms(store, ids, text, |ids|);
      TakeAll(merge);
      LaterIs(env, store, tx);
      PerformAllConcat(store, merge, Take(last, tx.done - |ids|));
    }
  }

  lemma MergeWritesSize(ids: seq<nat>, text: string)
    requires ids != []
    ensures |MergeWrites(ids, text)| == |ids|
  {}

  lemma RunTxIs(env: Env, store: Store, tx: Tx)
    ensures RunTx(env, store, tx) == PerformAll(store, Take(Plan(env, tx.op, store), tx.done))
  {
    hide PerformAll, Take, Plan;
  }

  lemma TakeAll(writes: seq<Write>)
    ensures Take(writes, |writes|) == writes
  {}

  lemma LaterIs(env: Env, store: Store, tx: Tx)
    ensures var n := |Listing(store, env.target)|; Later(env, store, tx) == Tx(tx.who, tx.op, if tx.done > n then tx.done - n else 0)
  {
    hide Listing;
  }

  /** What is carried in the middle of a merge. */
  lemma HalfHeld(env: Env, store: Store, n: nat)
    requires env.Valid() && store.Valid() && DeriverOk(env.derive) && MergeResult(env, store).Ok?
    requires 1 <= n < |Listing(store, env.target)|
    ensures var ids, text := Listing(store, env.target), MergeResult(env, store).value;
            var half := store.(bodies := Half(store.bodies, ids, text, n - 1));
            half.Valid() && Conserves(Held(env, store), {}, Identities(Trimmed(env, MergeTable(env, store))), Held(env, half))
  {
    hide *;
    MergeHolds(env, store);
    var ids, text := Listing(store, env.target), MergeResult(env, store).value;
    var half := store.(bodies := Half(store.bodies, ids, text, n - 1));
    GoodListed(text, env.target);
    HalfListing(store, text, n, env.target);
    HalfBodies(store.bodies, ids, text, n - 1, ids[0]);
    var left := ids[n..];
    assert ids[n - 1 + 1..] == left;
    HalfKeepsRest(store.bodies, ids, text, n - 1);
    CarriedSame(store.bodies, half.bodies, left, env.derive);
    CarriedSuffix(store.bodies, ids, n, env.derive);
    CarriedFirst(half.bodies, ids[0], left, text, env.derive);
    HeldSeveral(env, store);
    HeldSeveral(env, half);
    ConservesIs(Held(env, store), {}, Identities(Trimmed(env, MergeTable(env, store))), Held(env, half));
  }

  lemma CarriedFirst(bodies: Comments, id: nat, left: seq<nat>, text: string, derive: Deriver)
    requires BodyAt(bodies, id) == text && Identified(RowsIn(text))
    ensures CarriedBy(bodies, [id] + left, derive) == Identities(RowsIn(text)) + CarriedBy(bodies, left, derive)
  {
    MigrateIdentifies(RowsIn(text), id, derive, 0);
    hide BodyAt, RowsIn, Identified, Identities;
    assert ([id] + left)[1..] == left;
  }

  lemma HeldSeveral(env: Env, store: Store)
    requires |Listing(store, env.target)| > 1
    ensures Held(env, store) == CarriedBy(store.bodies, Listing(store, env.target), env.derive)
  {
    hide Listing, CarriedBy;
  }

  lemma CollapsedHeld(env: Env, store: Store)
    requires env.Valid() && store.Valid() && DeriverOk(env.derive) && MergeResult(env, store).Ok? && |Listing(store, env.target)| > 1
    requires Tracked(env, Collapsed(env, store)) && Existing(env, Collapsed(env, store)) == Some(MergeResult(env, store).value)
    ensures Conserves(Held(env, store), {}, Identities(Trimmed(env, MergeTable(env, store))), Held(env, Collapsed(env, store)))
  {
    hide *;
    MergeHolds(env, store);
    HeldSeveral(env, store);
    HeldTracked(env, Collapsed(env, store));
    StoreKeysOf(env, Collapsed(env, store), MergeResult(env, store).value);
    MarksAreIdentities(RowsIn(MergeResult(env, store).value));
    ConservesIs(Held(env, store), {}, Identities(Trimmed(env, MergeTable(env, store))), Held(env, Collapsed(env, store)));
  }

  lemma ConservesTwice(a: set<Identity>, add1: set<Identity>, drop1: set<Identity>, b: set<Identity>, add2: set<Identity>,
                       drop2: set<Identity>, c: set<Identity>)
    requires Conserves(a, add1, drop1, b) && Conserves(b, add2, drop2, c)
    ensures Conserves(a, add1 + add2, drop1 + drop2, c)
  {}

  lemma NothingConserved(a: set<Identity>)
    ensures Conserves(a, {}, {}, a)
  {}

  lemma MultiMarks(env: Env, store: Store, tx: Tx)
    requires |Listing(store, env.target)| > 1
    ensures MarksAdded(env, store, tx)
         == if MergeResult(env, store).Err? then {} else Marks(TxAdds(env, Collapsed(env, store), Later(env, store, tx)))
    ensures MarksDropped(env, store, tx)
         == if MergeResult(env, store).Err? || tx.done == 0 then {}
            else Identities(Trimmed(env, MergeTable(env, store))) + OneDropped(env, Collapsed(env, store), Later(env, store, tx))
  {
    hide MergeResult, TxAdds, Collapsed, Later, Trimmed, MergeTable, OneDropped, Listing;
  }

  lemma NoMoreWrites(env: Env, store: Store, tx: Tx)
    requires tx.done == 0
    ensures TxAdds(env, store, tx) == [] && OneDropped(env, store, tx) == {}
  {
    hide StoreKeys;
    NoMarks();
    assert TxDrops(env, store, tx) == 0;
    assert First(StoreKeys(env, store) + TxAdds(env, store, tx), 0) == [];
  }

  lemma UnmergedStays(env: Env, store: Store, tx: Tx)
    requires store.Valid() && |Listing(store, env.target)| > 1 && (MergeResult(env, store).Err? || tx.done == 0)
    ensures RunTx(env, store, tx) == store
  {
    hide TextFor, MergeWrites, FinalWrites, Listing, Perform;
    assert Take(Plan(env, tx.op, store), tx.done) == [];
  }

  lemma MultiConserves(env: Env, store: Store, tx: Tx)
    requires env.Valid() && OpOk(tx.op) && store.Valid() && DeriverOk(env.derive) && |Listing(store, env.target)| > 1
    ensures RunTx(env, store, tx).Valid()
    ensures Conserves(Held(env, store), MarksAdded(env, store, tx), MarksDropped(env, store, tx), Held(env, RunTx(env, store, tx)))
    ensures DropsForCaps(env, store, tx)
  {
    hide *;
    MultiMarks(env, store, tx);
    var merged, later := Collapsed(env, store), Later(env, store, tx);
    LaterIs(env, store, tx);
    NoMarks();
    if MergeResult(env, store).Err? || tx.done == 0 {
      UnmergedStays(env, store, tx);
      DropsForCapsIs(env, store, tx);
      NothingConserved(Held(env, store));
      if tx.done == 0 {
        NoMoreWrites(env, merged, later);
      }
    } else {
      MergeHolds(env, store);
      MultiRun(env, store, tx);
      MergeDropsForCaps(env, store);
      TxFollows(env, merged, later);
      DropsForCapsIs(env, store, tx);
      if tx.done < |Listing(store, env.target)| {
        HalfHeld(env, store, tx.done);
        NoMoreWrites(env, merged, later);
        var dropped := Identities(Trimmed(env, MergeTable(env, store)));
        assert dropped + {} == dropped;
      } else {
        CollapsedHeld(env, store);
        TrackedConserves(env, merged, later);
        KeysFollowTracked(env, merged, TxAdds(env, merged, later), TxDrops(env, merged, later), RunTx(env, merged, later));
        TrackedCases(env, RunTx(env, store, tx));
        ConservesTwice(Held(env, store), {}, Identities(Trimmed(env, MergeTable(env, store))), Held(env, merged),
                       Marks(TxAdds(env, merged, later)), OneDropped(env, merged, later), Held(env, RunTx(env, store, tx)));
        assert {} + Marks(TxAdds(env, merged, later)) == Marks(TxAdds(env, merged, later));
      }
    }
  }

  // ---------------------------------------------------------------------------------------------
  // Every operation, and every run
  // ---------------------------------------------------------------------------------------------

  lemma SingleMarks(env: Env, store: Store, tx: Tx)
    requires |Listing(store, env.target)| <= 1
    ensures MarksAdded(env, store, tx) == if Tracked(env, store) then Marks(TxAdds(env, store, tx)) else Marks(StrangerAdds(env, store, tx))
    ensures MarksDropped(env, store, tx) == if Tracked(env, store) then OneDropped(env, store, tx) else {}
  {
    hide Tracked, TxAdds, StrangerAdds, OneDropped, Listing, Marks;
  }

  /** One operation, complete or cut short, from any comments. */
  lemma TxConserves(env: Env, store: Store, tx: Tx)
    requires env.Valid() && OpOk(tx.op) && store.Valid() && DeriverOk(env.derive)
    ensures RunTx(env, store, tx).Valid()
    ensures Conserves(Held(env, store), MarksAdded(env, store, tx), MarksDropped(env, store, tx), Held(env, RunTx(env, store, tx)))
    ensures DropsForCaps(env, store, tx)
  {
    hide *;
    if |Listing(store, env.target)| > 1 {
      MultiConserves(env, store, tx);
    } else {
      SingleMarks(env, store, tx);
      if Tracked(env, store) {
        TrackedConserves(env, store, tx);
        TxFollows(env, store, tx);
        KeysFollowTracked(env, store, TxAdds(env, store, tx), TxDrops(env, store, tx), RunTx(env, store, tx));
        TrackedCases(env, RunTx(env, store, tx));
      } else {
        StrangerConserves(env, store, tx);
      }
      DropsForCapsIs(env, store, tx);
    }
  }

  /** What the operations of a log added. */
  function AllAdded(env: Env, init: Store, log: seq<Tx>): set<Identity> {
    if log == [] then {}
    else
      var rest := log[..|log| - 1];
      AllAdded(env, init, rest) + MarksAdded(env, Serial(env, init, rest), log[|log| - 1])
  }

  /** What the caps dropped, in merging and in writing. */
  function AllDropped(env: Env, init: Store, log: seq<Tx>): set<Identity> {
    if log == [] then {}
    else
      var rest := log[..|log| - 1];
      AllDropped(env, init, rest) + MarksDropped(env, Serial(env, init, rest), log[|log| - 1])
  }

  /** Every drop of a log was one of the caps. */
  ghost predicate AllForCaps(env: Env, init: Store, log: seq<Tx>) {
    forall k :: 0 <= k < |log| ==> DropsForCaps(env, Serial(env, init, log[..k]), log[k])
  }

  lemma {:induction false} LogConserves(env: Env, init: Store, log: seq<Tx>)
    requires env.Valid() && init.Valid() && DeriverOk(env.derive) && forall k :: 0 <= k < |log| ==> OpOk(log[k].op)
    ensures Conserves(Held(env, init), AllAdded(env, init, log), AllDropped(env, init, log), Held(env, Serial(env, init, log)))
    ensures AllForCaps(env, init, log)
  {
    hide Held, MarksAdded, MarksDropped, RunTx, OpOk, DeriverOk, Conserves, Env.Valid, Store.Valid, DropsForCaps;
    if log == [] {
      NothingConserved(Held(env, init));
    } else {
      var rest, tx := log[..|log| - 1], log[|log| - 1];
      var before := Serial(env, init, rest);
      SerialValid(env, init, rest);
      LogConserves(env, init, rest);
      TxConserves(env, before, tx);
      ConservesTwice(Held(env, init), AllAdded(env, init, rest), AllDropped(env, init, rest), Held(env, before),
                     MarksAdded(env, before, tx), MarksDropped(env, before, tx), Held(env, RunTx(env, before, tx)));
      forall k | 0 <= k < |log| ensures DropsForCaps(env, Serial(env, init, log[..k]), log[k]) {
        if k < |rest| {
          assert rest[..k] == log[..k] && rest[k] == log[k];
        }
      }
    }
  }

  /**
    From any comments, in any concurrent run: every identity that a listed comment carried at the start, or that an
    operation of the log added, is carried by a listed comment at the end, unless its row was dropped; each drop was
    one of the caps; and nothing else is carried.
   */
  lemma NoIdentityLost(env: Env, start: System, events: seq<Event>)
    requires Initial(env, start) && DeriverOk(env.derive)
    ensures var init, end := start.shared.store, Run(env, start, events);
            && Conserves(Held(env, init), AllAdded(env, init, end.log), AllDropped(env, init, end.log), Held(env, end.shared.store))
            && AllForCaps(env, init, end.log)
  {
    hide *;
    LogOps(env, start, events);
    LogConserves(env, start.shared.store, Run(env, start, events).log);
  }
}
