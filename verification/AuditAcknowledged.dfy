/**
  What an acknowledgement of a recorded command is worth: at every later moment its delivery is carried by a listed
  comment, unless the caps have dropped its row since.
 */
module AuditAcknowledged {
  import opened Wrappers
  import opened AuditCodec
  import opened AuditComment
  import opened AuditMerge
  import opened AuditStore
  import opened AuditOps
  import opened AuditRecorders
  import opened AuditHistory
  import opened AuditOutcomes
  import opened AuditConservation

  // ---------------------------------------------------------------------------------------------
  // What is carried stays carried, or is dropped
  // ---------------------------------------------------------------------------------------------

  /** The identity is carried by a listed comment, or was dropped by the caps. */
  ghost predicate Kept(env: Env, init: Store, store: Store, log: seq<Tx>, id: Identity) {
    id in Held(env, store) || id in AllDropped(env, init, log)
  }

  lemma KeptIs(env: Env, init: Store, store: Store, log: seq<Tx>, id: Identity)
    ensures Kept(env, init, store, log, id) <==> id in Held(env, store) || id in AllDropped(env, init, log)
  {
    hide Held, AllDropped;
  }

  lemma OneGrows(env: Env, store: Store, who: nat, op: Op, a: nat, b: nat)
    requires a <= b
    ensures Marks(TxAdds(env, store, Tx(who, op, a))) <= Marks(TxAdds(env, store, Tx(who, op, b)))
    ensures OneDropped(env, store, Tx(who, op, a)) <= OneDropped(env, store, Tx(who, op, b))
    ensures Marks(StrangerAdds(env, store, Tx(who, op, a))) <= Marks(StrangerAdds(env, store, Tx(who, op, b)))
  {
    NoMarks();
    if a == 0 {
      NoMoreWrites(env, store, Tx(who, op, a));
    } else {
      SameWrites(env, store, who, op, a, b);
    }
    hide Marks, TxAdds, TxDrops, StoreKeys, Additions, Decide, Existing;
  }

  lemma SameWrites(env: Env, store: Store, who: nat, op: Op, a: nat, b: nat)
    requires 1 <= a <= b
    ensures TxAdds(env, store, Tx(who, op, a)) == TxAdds(env, store, Tx(who, op, b))
    ensures TxDrops(env, store, Tx(who, op, a)) == TxDrops(env, store, Tx(who, op, b))
    ensures StrangerAdds(env, store, Tx(who, op, a)) == StrangerAdds(env, store, Tx(who, op, b))
  {
    hide Additions, Decide, Existing, Wanted, TableDrops, EntryKey;
  }

  /** The more an operation has written, the more it has added and dropped. */
  lemma MarksGrow(env: Env, store: Store, who: nat, op: Op, a: nat, b: nat)
    requires a <= b
    ensures MarksAdded(env, store, Tx(who, op, a)) <= MarksAdded(env, store, Tx(who, op, b))
    ensures MarksDropped(env, store, Tx(who, op, a)) <= MarksDropped(env, store, Tx(who, op, b))
  {
    hide *;
    var x, y := Tx(who, op, a), Tx(who, op, b);
    if |Listing(store, env.target)| > 1 {
      MultiMarks(env, store, x);
      MultiMarks(env, store, y);
      LaterIs(env, store, x);
      LaterIs(env, store, y);
      OneGrows(env, Collapsed(env, store), who, op, Later(env, store, x).done, Later(env, store, y).done);
    } else {
      SingleMarks(env, store, x);
      SingleMarks(env, store, y);
      OneGrows(env, store, who, op, a, b);
    }
  }

  lemma DroppedSnoc(env: Env, init: Store, head: seq<Tx>, tx: Tx)
    ensures AllDropped(env, init, head + [tx]) == AllDropped(env, init, head) + MarksDropped(env, Serial(env, init, head), tx)
  {
    hide MarksDropped, Serial;
    assert (head + [tx])[..|head|] == head;
  }

  /** One more write of the operation at the end of the log loses nothing but what it drops. */
  lemma WriteKeeps(env: Env, init: Store, head: seq<Tx>, who: nat, op: Op, done: nat, id: Identity)
    requires env.Valid() && init.Valid() && DeriverOk(env.derive) && OpOk(op)
    requires var base := Serial(env, init, head);
             || id in Held(env, RunTx(env, base, Tx(who, op, done)))
             || id in AllDropped(env, init, head) + MarksDropped(env, base, Tx(who, op, done))
    ensures Kept(env, init, Serial(env, init, head + [Tx(who, op, done + 1)]), head + [Tx(who, op, done + 1)], id)
  {
    hide *;
    var base, x, y := Serial(env, init, head), Tx(who, op, done), Tx(who, op, done + 1);
    SerialValid(env, init, head);
    SerialSnoc(env, init, head, y);
    DroppedSnoc(env, init, head, y);
    TxConserves(env, base, x);
    TxConserves(env, base, y);
    MarksGrow(env, base, who, op, done, done + 1);
    ConservesIs(Held(env, base), MarksAdded(env, base, x), MarksDropped(env, base, x), Held(env, RunTx(env, base, x)));
    ConservesIs(Held(env, base), MarksAdded(env, base, y), MarksDropped(env, base, y), Held(env, RunTx(env, base, y)));
    KeptIs(env, init, Serial(env, init, head + [y]), head + [y], id);
  }

  lemma NothingDone(env: Env, store: Store, who: nat, op: Op)
    ensures RunTx(env, store, Tx(who, op, 0)) == store
  {
    RunTxOne(env, store, Tx(who, op, 0));
  }

  /** A step of the system keeps what is kept. */
  lemma KeptStays(env: Env, init: Store, sys: System, event: Event, id: Identity)
    requires Inv(env, init, sys) && DeriverOk(env.derive) && Kept(env, init, sys.shared.store, sys.log, id)
    ensures Kept(env, init, Next(env, sys, event).shared.store, Next(env, sys, event).log, id)
  {
    hide *;
    InvStays(env, init, sys, event);
    InvParts(env, init, sys);
    InvParts(env, init, Next(env, sys, event));
    if event.who >= |sys.recorders| {
      NobodyMoves(env, sys, event);
    } else {
      var who := event.who;
      var p := sys.recorders[who];
      NextIs(env, sys, event);
      InvReady(env, init, sys, who);
      var (after, q) := Advance(env, p, sys.shared, event.now, event.fault);
      if q.done > p.done {
        WriteStep(env, init, sys.shared, sys.log, who, p, event.now, event.fault);
        NextWriteParts(env, sys.shared, p, q);
        ReadyView(env, init, sys.shared, sys.log, who, p);
        ReadyParts(env, init, sys.shared, sys.log, who, p);
        LogShape(env, init, sys.shared.store, sys.log, who, p, q);
        var head := if p.done == 0 then sys.log else sys.log[..|sys.log| - 1];
        KeptIs(env, init, sys.shared.store, sys.log, id);
        if p.done == 0 {
          NothingDone(env, Serial(env, init, head), who, p.op);
        } else {
          SerialSnoc(env, init, head, Tx(who, p.op, p.done));
          DroppedSnoc(env, init, head, Tx(who, p.op, p.done));
        }
        WriteKeeps(env, init, head, who, p.op, p.done, id);
      } else {
        SameLog(sys.log, who, p, q);
      }
    }
  }

  lemma SameLog(log: seq<Tx>, who: nat, p: Recorder, q: Recorder)
    requires q.done <= p.done
    ensures LogWrite(log, who, p, q) == log
  {}

  // ---------------------------------------------------------------------------------------------
  // What recorders read
  // ---------------------------------------------------------------------------------------------

  lemma FinalListed(env: Env, op: Op, id: Option<nat>, existing: Option<string>)
    requires env.Valid() && OpOk(op) && (existing.Some? ==> Listed(existing.value, env.target))
    ensures forall w :: w in FinalWrites(env, op, id, existing) ==> !w.Drop? && Listed(w.text, env.target)
  {
    hide *;
    FinalWritesShape(env, op, id, existing);
    if Decide(env, op, existing).Replace? {
      if existing.None? {
        CreatedIsListed(env, op);
      } else if Good(existing.value, env.target) {
        DecideFollows(env, op, existing.value);
        OutcomeIs(env, op, existing, Keys(RowsIn(existing.value)));
        FollowsParts(env, Keys(RowsIn(existing.value)), Additions(env, op, existing), TableDrops(env, Wanted(env, op, existing)),
                     Decide(env, op, existing).body);
      } else {
        StrangerWrites(env, op, existing.value);
        GoodListed(Decide(env, op, existing).body, env.target);
      }
    }
  }

  lemma FinalWritesShape(env: Env, op: Op, id: Option<nat>, existing: Option<string>)
    ensures var writes := FinalWrites(env, op, id, existing);
            if Decide(env, op, existing).Replace?
            then |writes| == 1 && !writes[0].Drop? && writes[0].text == Decide(env, op, existing).body
            else writes == []
  {
    hide Decide;
  }

  /** Whatever an operation writes is found by the next search. */
  lemma PlanListed(env: Env, op: Op, store: Store)
    requires env.Valid() && OpOk(op) && store.Valid() && DeriverOk(env.derive)
    ensures forall w :: w in Plan(env, op, store) ==> w.Drop? || Listed(w.text, env.target)
  {
    hide *;
    var ids := Listing(store, env.target);
    ListingIs(store, env.target);
    PlanCases(env, op, store);
    if ids == [] {
      FinalListed(env, op, None, None);
    } else if |ids| == 1 {
      assert ids[0] in ids;
      BodyIs(store.bodies, ids[0]);
      FinalListed(env, op, Some(ids[0]), Some(BodyAt(store.bodies, ids[0])));
    } else if MergeResult(env, store).Ok? {
      MergeHolds(env, store);
      var text := MergeResult(env, store).value;
      GoodListed(text, env.target);
      FinalListed(env, op, Some(ids[0]), Some(text));
      MergeWritesListed(ids, text);
    }
  }

  lemma BodyIs(bodies: Comments, id: nat)
    requires id in bodies
    ensures BodyAt(bodies, id) == bodies[id]
  {}

  lemma MergeWritesListed(ids: seq<nat>, text: string)
    requires ids != []
    ensures forall w :: w in MergeWrites(ids, text) ==> w.Drop? || w.text == text
    ensures |ids| > 1 ==> MergeWrites(ids, text)[|MergeWrites(ids, text)| - 1].Drop?
  {}

  lemma PlanCases(env: Env, op: Op, store: Store)
    requires store.Valid()
    ensures var ids := Listing(store, env.target);
            Plan(env, op, store) ==
              if ids == [] then FinalWrites(env, op, None, None)
              else if |ids| == 1 then FinalWrites(env, op, Some(ids[0]), Some(BodyAt(store.bodies, ids[0])))
              else if MergeResult(env, store).Err? then []
              else MergeWrites(ids, MergeResult(env, store).value) + FinalWrites(env, op, Some(ids[0]), Some(MergeResult(env, store).value))
  {
    hide Listing, FinalWrites, TextFor, MergeWrites, BodyAt;
  }

  /** A comment that was listed is listed still, or gone. */
  predicate ListedOrGone(store: Store, id: nat, target: Target) { id in store.bodies ==> Listed(store.bodies[id], target) }

  /** A recorder that is about to read knows only comments that were listed. */
  ghost predicate Knows(env: Env, store: Store, p: Recorder) {
    p.step.Reading? ==> forall id :: id in p.step.ids ==> ListedOrGone(store, id, env.target)
  }

  lemma WriteKeepsListed(store: Store, write: Write, id: nat, target: Target)
    requires ListedOrGone(store, id, target) && (write.Drop? || Listed(write.text, target))
    ensures ListedOrGone(Perform(store, write), id, target)
  {
    hide Listed;
  }

  /** What landed is the next write of the plan. */
  lemma LandedWrite(env: Env, init: Store, sys: System, event: Event)
    requires Inv(env, init, sys) && event.who < |sys.recorders|
    requires var p := sys.recorders[event.who]; Advance(env, p, sys.shared, event.now, event.fault).1.done > p.done
    ensures var p := sys.recorders[event.who];
            && p.done < |Plan(env, p.op, p.base)| && p.base.Valid() && OpOk(p.op)
            && Next(env, sys, event).shared.store == Perform(sys.shared.store, Plan(env, p.op, p.base)[p.done])
  {
    hide *;
    var who := event.who;
    var p := sys.recorders[who];
    InvStays(env, init, sys, event);
    InvParts(env, init, sys);
    InvParts(env, init, Next(env, sys, event));
    NextIs(env, sys, event);
    InvReady(env, init, sys, who);
    var (after, q) := Advance(env, p, sys.shared, event.now, event.fault);
    WriteStep(env, init, sys.shared, sys.log, who, p, event.now, event.fault);
    NextWriteParts(env, sys.shared, p, q);
    ReadyView(env, init, sys.shared, sys.log, who, p);
    LogShape(env, init, sys.shared.store, sys.log, who, p, q);
    PlanRoom(env, init, sys.shared.store, sys.log, who, p, event.now, event.fault, sys.shared);
    var head := if p.done == 0 then sys.log else sys.log[..|sys.log| - 1];
    SerialValid(env, init, head);
    SerialSnoc(env, init, head, Tx(who, p.op, p.done + 1));
    RunTxIs(env, p.base, Tx(who, p.op, p.done + 1));
    RunTxIs(env, p.base, Tx(who, p.op, p.done));
    PerformSnoc(p.base, Plan(env, p.op, p.base), p.done);
    if p.done == 0 {
      NothingDone(env, p.base, who, p.op);
    } else {
      SerialSnoc(env, init, head, Tx(who, p.op, p.done));
    }
  }

  lemma StoreMoves(env: Env, init: Store, sys: System, event: Event)
    requires Inv(env, init, sys) && event.who < |sys.recorders|
    requires var p := sys.recorders[event.who]; Advance(env, p, sys.shared, event.now, event.fault).1.done <= p.done
    ensures Next(env, sys, event).shared.store == sys.shared.store && Next(env, sys, event).log == sys.log
  {
    hide *;
    InvStays(env, init, sys, event);
    InvParts(env, init, sys);
    InvParts(env, init, Next(env, sys, event));
    NextIs(env, sys, event);
    var p := sys.recorders[event.who];
    SameLog(sys.log, event.who, p, Advance(env, p, sys.shared, event.now, event.fault).1);
  }

  lemma ReadingComes(env: Env, p: Recorder, shared: Shared, now: int, fault: Fault)
    ensures var (after, q) := Advance(env, p, shared, now, fault);
            q.step.Reading? ==> after.store == shared.store && q.step.ids == Listing(shared.store, env.target)
  {
    hide Listing, Decide, Candidates, TextFor, BodyAt, MergeWrites, Perform, InsertId;
  }

  lemma ListingKnown(env: Env, store: Store, p: Recorder)
    requires store.Valid() && (p.step.Reading? ==> p.step.ids == Listing(store, env.target))
    ensures Knows(env, store, p)
  {
    ListingIs(store, env.target);
    hide Listing, Listed;
  }

  lemma KnowsThrough(env: Env, store: Store, after: Store, p: Recorder, write: Write)
    requires Knows(env, store, p) && (after == store || (after == Perform(store, write) && (write.Drop? || Listed(write.text, env.target))))
    ensures Knows(env, after, p)
  {
    hide Perform, ListedOrGone, Listed;
    if p.step.Reading? && after != store {
      forall id | id in p.step.ids ensures ListedOrGone(after, id, env.target) {
        WriteKeepsListed(store, write, id, env.target);
      }
    }
  }

  ghost predicate AllKnow(env: Env, sys: System) {
    forall i :: 0 <= i < |sys.recorders| ==> Knows(env, sys.shared.store, sys.recorders[i])
  }

  lemma InvValid(env: Env, init: Store, sys: System)
    requires Inv(env, init, sys)
    ensures sys.shared.store.Valid() && env.Valid()
  {
    hide *;
    InvParts(env, init, sys);
    SerialValid(env, init, sys.log);
  }

  lemma KnowsStays(env: Env, init: Store, sys: System, event: Event)
    requires Inv(env, init, sys) && DeriverOk(env.derive) && AllKnow(env, sys)
    ensures AllKnow(env, Next(env, sys, event))
  {
    hide Inv, Knows, Next, Advance, Plan, Perform, Listed, DeriverOk, OpOk, Env.Valid, Store.Valid, LogWrite, Listing;
    var next := Next(env, sys, event);
    if event.who >= |sys.recorders| {
      NobodyMoves(env, sys, event);
    } else {
      var p := sys.recorders[event.who];
      var (after, q) := Advance(env, p, sys.shared, event.now, event.fault);
      NextIs(env, sys, event);
      InvValid(env, init, sys);
      InvStays(env, init, sys, event);
      InvValid(env, init, next);
      var write := if p.done < |Plan(env, p.op, p.base)| then Plan(env, p.op, p.base)[p.done] else Drop(0);
      if q.done > p.done {
        LandedWrite(env, init, sys, event);
        PlanListed(env, p.op, p.base);
        assert write in Plan(env, p.op, p.base);
      } else {
        StoreMoves(env, init, sys, event);
      }
      forall i | 0 <= i < |next.recorders| ensures Knows(env, next.shared.store, next.recorders[i]) {
        if i == event.who {
          ReadingComes(env, p, sys.shared, event.now, event.fault);
          ListingKnown(env, next.shared.store, q);
        } else {
          KnowsThrough(env, sys.shared.store, next.shared.store, sys.recorders[i], write);
        }
      }
    }
  }

  // ---------------------------------------------------------------------------------------------
  // Becoming acknowledged
  // ---------------------------------------------------------------------------------------------

  /** The recorder records a command that came with this delivery. */
  predicate Records(op: Op, id: string) { op.Record? && op.entry.delivery == Some(id) }

  lemma MarksHave(rows: seq<Row>, id: string)
    requires HasDelivery(rows, id)
    ensures Delivery(id) in Marks(Keys(rows))
  {
    var k :| 0 <= k < |rows| && rows[k].delivery == Some(id);
    var keys := Keys(rows);
    assert Marked(keys[k]) && MarkOf(keys[k]) == Delivery(id);
  }

  lemma {:induction false} MigrateHas(rows: seq<Row>, source: nat, derive: Deriver, at: nat, id: string)
    requires HasDelivery(rows, id)
    ensures Delivery(id) in Identities(MigrateFrom(rows, source, derive, at))
  {
    var k :| 0 <= k < |rows| && rows[k].delivery == Some(id);
    var out := MigrateFrom(rows, source, derive, at);
    if k == 0 {
      assert IdentityOf(out[0]) == Delivery(id);
    } else {
      assert rows[1..][k - 1] == rows[k];
      MigrateHas(rows[1..], source, derive, at + 1, id);
      IdentitiesCons(out[0], MigrateFrom(rows[1..], source, derive, at + 1));
    }
  }

  lemma {:induction false} CarriedHas(bodies: Comments, ids: seq<nat>, at: nat, derive: Deriver, id: string)
    requires at in ids && HasDelivery(RowsIn(BodyAt(bodies, at)), id)
    ensures Delivery(id) in CarriedBy(bodies, ids, derive)
  {
    if ids[0] == at {
      MigrateHas(RowsIn(BodyAt(bodies, at)), at, derive, 0, id);
    } else {
      CarriedHas(bodies, ids[1..], at, derive, id);
    }
    hide BodyAt, RowsIn, Identities, HasDelivery;
  }

  /** A delivery in a listed comment of this pull request is carried. */
  lemma HeldHas(env: Env, store: Store, at: nat, id: string)
    requires store.Valid() && at in store.bodies && Listed(store.bodies[at], env.target)
    requires Good(store.bodies[at], env.target) && HasDelivery(RowsIn(store.bodies[at]), id)
    ensures Delivery(id) in Held(env, store)
  {
    hide *;
    var ids := Listing(store, env.target);
    ListingIs(store, env.target);
    BodyIs(store.bodies, at);
    assert at in ids;
    if |ids| > 1 {
      HeldSeveral(env, store);
      CarriedHas(store.bodies, ids, at, env.derive, id);
    } else {
      assert ids == [at];
      TrackedBy(env, store, at, store.bodies[at]);
      HeldTracked(env, store);
      StoreKeysOf(env, store, store.bodies[at]);
      MarksHave(RowsIn(store.bodies[at]), id);
    }
  }

  /** A recorder that keeps a comment as it is found its delivery there. */
  lemma KeepKnows(env: Env, entry: Entry, body: string, id: string)
    requires env.Valid() && EntryOk(entry) && entry.delivery == Some(id) && DecideRecord(env, entry, Some(body)) == Keep
    ensures body != "" && IsExpected(body, env.target) && ParseCreated(Text.SplitLines(body)).Ok? && ParseRows(body).Ok?
    ensures HasDelivery(RowsIn(body), id)
  {
    hide *;
    EnvParts(env);
    KeepMeansSame(env, entry, body);
    ExpectedNotEmpty(env.target);
    if body == "" || !IsExpected(body, env.target) {
      AppendStarts(env.scrub, body, entry, env.target);
    } else {
      AppendReads(env, body, entry);
      RowsInIs(body);
      var created, rows := ParseCreated(Text.SplitLines(body)).value, ParseRows(body).value;
      AppendKeepsRows(env.scrub, body, created, rows, entry, env.target);
      KnownIs(rows, entry.delivery);
      if !KnownDelivery(rows, entry.delivery) {
        NewRowDelivery(env.scrub, entry);
        var all := rows + [NewRow(env.scrub, entry)];
        DeliverySurvives(env.scrub, rows, NewRow(env.scrub, entry), Dropped(env.scrub, created, all, env.target), id);
      }
    }
  }

  lemma KeepMeansSame(env: Env, entry: Entry, body: string)
    requires DecideRecord(env, entry, Some(body)) == Keep
    ensures Append(env.scrub, body, entry, env.target) == Ok(body)
  {
    hide Append;
  }

  lemma RowsInIs(body: string)
    requires ParseRows(body).Ok?
    ensures RowsIn(body) == ParseRows(body).value
  {
    hide ParseRows;
  }

  lemma RecordDecides(env: Env, op: Op, existing: Option<string>)
    requires op.Record?
    ensures Decide(env, op, existing) == DecideRecord(env, op.entry, existing) && (OpOk(op) <==> EntryOk(op.entry))
  {
    hide DecideRecord, TimeOk;
  }

  lemma MarksOfEntry(entry: Entry, id: string)
    requires entry.delivery == Some(id)
    ensures Delivery(id) in Marks([EntryKey(entry)])
  {
    var keys := [EntryKey(entry)];
    assert Marked(keys[0]) && MarkOf(keys[0]) == Delivery(id);
  }

  /** A record that replaces a comment of this pull request, or creates one, adds its row. */
  lemma ReplaceAdds(env: Env, op: Op, existing: Option<string>, id: string)
    requires Records(op, id) && Decide(env, op, existing).Replace? && (existing.Some? ==> Good(existing.value, env.target))
    ensures Additions(env, op, existing) == [EntryKey(op.entry)] && Delivery(id) in Marks([EntryKey(op.entry)])
  {
    hide *;
    RecordsIs(op, id);
    MarksOfEntry(op.entry, id);
    RecordDecides(env, op, existing);
    RecordReplaces(env, op.entry, existing);
    RecordWants(env, op.entry, existing);
    if existing.None? {
      FirstAdds(op.entry);
    } else {
      var body := existing.value;
      GoodParts(body, env.target);
      var rows := ParseRows(body).value;
      AppendUnfolds(env.scrub, body, ParseCreated(Text.SplitLines(body)).value, rows, op.entry, env.target);
      KnownIsNotNew(rows, op.entry.delivery);
      if !KnownDelivery(rows, op.entry.delivery) {
        AddedOne(Keys(rows), op.entry);
      }
    }
  }

  lemma RecordsIs(op: Op, id: string)
    ensures Records(op, id) ==> op.Record? && op == Record(op.entry) && op.entry.delivery == Some(id)
  {}

  lemma SingleExisting(env: Env, store: Store)
    requires |Listing(store, env.target)| <= 1
    ensures var ids := Listing(store, env.target);
            Existing(env, store) == if ids == [] then None else Some(BodyAt(store.bodies, ids[0]))
  {
    hide Listing, BodyAt;
  }

  lemma TxAddsIs(env: Env, store: Store, tx: Tx)
    requires tx.done >= 1 && Decide(env, tx.op, Existing(env, store)).Replace?
    ensures TxAdds(env, store, tx) == Additions(env, tx.op, Existing(env, store))
    ensures tx.op.Record? ==> StrangerAdds(env, store, tx) == [EntryKey(tx.op.entry)]
  {
    hide Decide, Existing, Additions, EntryKey;
  }

  lemma NothingAfter(merge: seq<Write>, last: seq<Write>)
    requires merge != []
    ensures last == [] ==> (merge + last)[|merge + last| - 1] == merge[|merge| - 1]
  {}

  /** An operation whose plan ends with its own write, and that made it, added its row. */
  lemma WrittenIsAdded(env: Env, store: Store, who: nat, op: Op, id: string)
    requires env.Valid() && store.Valid() && DeriverOk(env.derive) && OpOk(op) && Records(op, id)
    requires var plan := Plan(env, op, store); plan != [] && !plan[|plan| - 1].Drop?
    ensures Delivery(id) in MarksAdded(env, store, Tx(who, op, |Plan(env, op, store)|))
  {
    hide *;
    RecordsIs(op, id);
    var ids, plan := Listing(store, env.target), Plan(env, op, store);
    var tx := Tx(who, op, |plan|);
    PlanCases(env, op, store);
    if |ids| > 1 {
      var text := MergeResult(env, store).value;
      MergeHolds(env, store);
      MultiRun(env, store, tx);
      MultiMarks(env, store, tx);
      LaterIs(env, store, tx);
      MergeWritesListed(ids, text);
      MergeWritesSize(ids, text);
      FinalWritesShape(env, op, Some(ids[0]), Some(text));
      NothingAfter(MergeWrites(ids, text), FinalWrites(env, op, Some(ids[0]), Some(text)));
      TxAddsIs(env, Collapsed(env, store), Later(env, store, tx));
      ReplaceAdds(env, op, Some(text), id);
    } else {
      SingleExisting(env, store);
      SingleMarks(env, store, tx);
      var existing := Existing(env, store);
      FinalWritesShape(env, op, if ids == [] then None else Some(ids[0]), existing);
      TxAddsIs(env, store, tx);
      MarksOfEntry(op.entry, id);
      if Tracked(env, store) {
        TrackedCases(env, store);
        ReplaceAdds(env, op, existing, id);
      }
    }
  }

  /** What a whole operation added is kept. */
  lemma AddedIsKept(env: Env, init: Store, head: seq<Tx>, tx: Tx, id: Identity)
    requires env.Valid() && init.Valid() && DeriverOk(env.derive) && OpOk(tx.op)
    requires id in MarksAdded(env, Serial(env, init, head), tx)
    ensures Kept(env, init, Serial(env, init, head + [tx]), head + [tx], id)
  {
    hide *;
    var base := Serial(env, init, head);
    SerialValid(env, init, head);
    SerialSnoc(env, init, head, tx);
    DroppedSnoc(env, init, head, tx);
    TxConserves(env, base, tx);
    ConservesIs(Held(env, base), MarksAdded(env, base, tx), MarksDropped(env, base, tx), Held(env, RunTx(env, base, tx)));
    KeptIs(env, init, Serial(env, init, head + [tx]), head + [tx], id);
  }

  /** A merge after which the operation has nothing to change holds its delivery already. */
  lemma MergedKnows(env: Env, store: Store, who: nat, op: Op, id: string, text: string)
    requires env.Valid() && store.Valid() && DeriverOk(env.derive) && OpOk(op) && Records(op, id)
    requires |Listing(store, env.target)| > 1
    requires MergesTo(env, store, Listing(store, env.target), Listing(store, env.target)[0], text)
    requires Decide(env, op, Some(text)) == Keep
    ensures |Plan(env, op, store)| == |Listing(store, env.target)|
    ensures Delivery(id) in Held(env, RunTx(env, store, Tx(who, op, |Listing(store, env.target)|)))
  {
    hide *;
    RecordsIs(op, id);
    RecordDecides(env, op, Some(text));
    KeepKnows(env, op.entry, text, id);
    MergesToIs(env, store, text);
    var ids := Listing(store, env.target);
    var tx := Tx(who, op, |ids|);
    MergeHolds(env, store);
    MultiRun(env, store, tx);
    MergingIs(env, store);
    PlanCases(env, op, store);
    FinalWritesShape(env, op, Some(ids[0]), Some(text));
    MergeWritesSize(ids, text);
    assert MergeWrites(ids, text) + [] == MergeWrites(ids, text);
    HeldTracked(env, Collapsed(env, store));
    StoreKeysOf(env, Collapsed(env, store), text);
    MarksHave(RowsIn(text), id);
  }

  lemma MergesToIs(env: Env, store: Store, text: string)
    requires |Listing(store, env.target)| >= 1 && MergesTo(env, store, Listing(store, env.target), Listing(store, env.target)[0], text)
    ensures |Listing(store, env.target)| > 1 && MergeResult(env, store) == Ok(text)
  {
    hide Listing, TextFor;
  }

  lemma RestOne(plan: seq<Write>, done: nat)
    requires done < |plan| && Rest(plan, done + 1) == []
    ensures done + 1 == |plan|
    ensures forall w :: Rest(plan, done) == [w] ==> plan[done] == w
  {
    assert Rest(plan, done) == plan[done..] && plan[done..][0] == plan[done];
  }

  /** A leading recorder's last write of its own is no deletion. */
  lemma WritingView(env: Env, init: Store, store: Store, log: seq<Tx>, who: nat, p: Recorder)
    requires View(env, init, store, log, who, p) && p.step.Writing? && store == Serial(env, init, log)
    ensures Rest(Plan(env, p.op, p.base), p.done) == [p.step.write] && !p.step.write.Drop?
  {
    hide Plan, Listing, Serial, Rest;
    ViewParts(env, init, store, log, who, p);
  }

  lemma MergingView(env: Env, init: Store, store: Store, log: seq<Tx>, who: nat, p: Recorder)
    requires View(env, init, store, log, who, p) && p.step.Merging? && store == Serial(env, init, log)
    ensures |Listing(p.base, env.target)| > 1
    ensures MergesTo(env, p.base, Listing(p.base, env.target), Listing(p.base, env.target)[0], p.step.text)
  {
    hide Plan, Listing, Serial, Rest, FinalWrites, TextFor;
    ViewParts(env, init, store, log, who, p);
  }

  /** A write that makes a recorder sure of success is its operation's own, or the last of a merge that needed no more. */
  lemma SureByWrite(env: Env, p: Recorder, shared: Shared, now: int, fault: Fault)
    requires var (_, q) := Advance(env, p, shared, now, fault); q.done > p.done && Acknowledged(q) && !Over(p)
    ensures p.step.Writing? || (p.step.Merging? && Decide(env, p.op, Some(p.step.text)) == Keep)
  {
    hide Decide, Perform, Listing, Candidates, TextFor, BodyAt, MergeWrites, InsertId;
  }

  lemma AckByWrite(env: Env, init: Store, sys: System, event: Event, id: string)
    requires Inv(env, init, sys) && DeriverOk(env.derive) && event.who < |sys.recorders|
    requires !Over(sys.recorders[event.who]) && Records(sys.recorders[event.who].op, id)
    requires var (_, q) := Advance(env, sys.recorders[event.who], sys.shared, event.now, event.fault);
             q.done > sys.recorders[event.who].done && Acknowledged(q)
    ensures Kept(env, init, Next(env, sys, event).shared.store, Next(env, sys, event).log, Delivery(id))
  {
    hide *;
    var who := event.who;
    var p := sys.recorders[who];
    InvStays(env, init, sys, event);
    InvParts(env, init, sys);
    InvParts(env, init, Next(env, sys, event));
    NextIs(env, sys, event);
    InvReady(env, init, sys, who);
    var (after, q) := Advance(env, p, sys.shared, event.now, event.fault);
    WriteStep(env, init, sys.shared, sys.log, who, p, event.now, event.fault);
    NextWriteParts(env, sys.shared, p, q);
    ReadyView(env, init, sys.shared, sys.log, who, p);
    LogShape(env, init, sys.shared.store, sys.log, who, p, q);
    PlanRoom(env, init, sys.shared.store, sys.log, who, p, event.now, event.fault, sys.shared);
    SureByWrite(env, p, sys.shared, event.now, event.fault);
    var plan := Plan(env, p.op, p.base);
    var head := if p.done == 0 then sys.log else sys.log[..|sys.log| - 1];
    var tx := Tx(who, p.op, p.done + 1);
    SerialValid(env, init, head);
    RestOne(plan, p.done);
    if p.step.Writing? {
      WritingView(env, init, sys.shared.store, sys.log, who, p);
      WrittenIsAdded(env, p.base, who, p.op, id);
      AddedIsKept(env, init, head, tx, Delivery(id));
    } else {
      MergingView(env, init, sys.shared.store, sys.log, who, p);
      MergedKnows(env, p.base, who, p.op, id, p.step.text);
      SerialSnoc(env, init, head, tx);
      KeptIs(env, init, Serial(env, init, head + [tx]), head + [tx], Delivery(id));
    }
  }

  /** A recorder that becomes sure without writing has just read a comment that needs no change. */
  lemma SureByReading(env: Env, p: Recorder, shared: Shared, now: int, fault: Fault)
    requires env.Valid() && OpOk(p.op)
    requires var (_, q) := Advance(env, p, shared, now, fault); q.done <= p.done && Acknowledged(q) && !Over(p)
    ensures p.step.Reading? && |p.step.ids| == 1 && (p.op.Record? ==> Decide(env, p.op, Some(BodyAt(shared.store.bodies, p.step.ids[0]))) == Keep)
  {
    hide Search, ReadFirst, MergeRead, MergeNext, SearchAgain, OpOk, Env.Valid, Decide, BodyAt;
    NothingKept(env, p.op);
    match p.step
    case Searching => SearchUnsure(env, p, shared);
    case Reading(ids) => SureRead(env, p, shared, ids);
    case MergeReading(ids, got, k, again) => MergeReadUnsure(env, p, shared, ids, got, k);
    case _ =>
  }

  lemma SureRead(env: Env, p: Recorder, shared: Shared, ids: seq<nat>)
    requires Decide(env, p.op, None) != Keep
    ensures Acknowledged(ReadFirst(env, p, shared, ids)) ==>
              |ids| == 1 && (p.op.Record? ==> Decide(env, p.op, Some(BodyAt(shared.store.bodies, ids[0]))) == Keep)
  {
    hide Decide, BodyAt;
  }

  lemma AckByReading(env: Env, init: Store, sys: System, event: Event, id: string)
    requires Inv(env, init, sys) && AllKnow(env, sys) && event.who < |sys.recorders|
    requires !Over(sys.recorders[event.who]) && Records(sys.recorders[event.who].op, id)
    requires var (_, q) := Advance(env, sys.recorders[event.who], sys.shared, event.now, event.fault);
             q.done <= sys.recorders[event.who].done && Acknowledged(q)
    ensures Kept(env, init, Next(env, sys, event).shared.store, Next(env, sys, event).log, Delivery(id))
  {
    hide *;
    var p, store := sys.recorders[event.who], sys.shared.store;
    InvParts(env, init, sys);
    InvValid(env, init, sys);
    StoreMoves(env, init, sys, event);
    RecordsIs(p.op, id);
    SureByReading(env, p, sys.shared, event.now, event.fault);
    var at := p.step.ids[0];
    var body := BodyAt(store.bodies, at);
    RecordDecides(env, p.op, Some(body));
    KeepKnows(env, p.op.entry, body, id);
    KnowsFirst(env, sys, event.who);
    BodyThere(store.bodies, at);
    ListedParts(body, env.target);
    GoodIs(body, env.target);
    HeldHas(env, store, at, id);
    KeptIs(env, init, store, sys.log, Delivery(id));
  }

  lemma BodyThere(bodies: Comments, at: nat)
    ensures BodyAt(bodies, at) != "" ==> at in bodies
    ensures at in bodies ==> BodyAt(bodies, at) == bodies[at]
  {}

  lemma KnowsFirst(env: Env, sys: System, who: nat)
    requires AllKnow(env, sys) && who < |sys.recorders| && sys.recorders[who].step.Reading? && sys.recorders[who].step.ids != []
    ensures sys.recorders[who].step.ids[0] in sys.shared.store.bodies ==>
              Listed(sys.shared.store.bodies[sys.recorders[who].step.ids[0]], env.target)
  {
    hide Listed;
    var p := sys.recorders[who];
    assert Knows(env, sys.shared.store, p) && p.step.ids[0] in p.step.ids;
    assert ListedOrGone(sys.shared.store, p.step.ids[0], env.target);
  }

  // ---------------------------------------------------------------------------------------------
  // Whole runs
  // ---------------------------------------------------------------------------------------------

  lemma {:induction false} AllKnowHolds(env: Env, start: System, events: seq<Event>)
    requires Initial(env, start) && DeriverOk(env.derive)
    ensures AllKnow(env, Run(env, start, events))
  {
    if events == [] {
      hide DeriverOk;
    } else {
      var rest := events[..|events| - 1];
      AllKnowHolds(env, start, rest);
      InvHolds(env, start, rest);
      RunLast(env, start, events);
      hide *;
      KnowsStays(env, start.shared.store, Run(env, start, rest), events[|events| - 1]);
    }
  }

  /**
    Success is worth its word: once a recorder of a command with a delivery reports success, that delivery is carried by
    a listed comment at every later moment of the run, unless the caps have dropped its row since.
   */
  lemma {:induction false} AcknowledgedIsCarried(env: Env, start: System, events: seq<Event>, i: nat, id: string)
    requires Initial(env, start) && DeriverOk(env.derive) && i < |start.recorders| && Records(start.recorders[i].op, id)
    requires |Run(env, start, events).recorders| == |start.recorders| && Acknowledged(Run(env, start, events).recorders[i])
    ensures var end := Run(env, start, events);
            Kept(env, start.shared.store, end.shared.store, end.log, Delivery(id)) && AllForCaps(env, start.shared.store, end.log)
  {
    NobodyYet(env, start, events, i);
    hide *;
    LogOps(env, start, events);
    LogConserves(env, start.shared.store, Run(env, start, events).log);
    if events != [] {
      var rest, event := events[..|events| - 1], events[|events| - 1];
      var sys := Run(env, start, rest);
      RunLast(env, start, events);
      RecordersStay(env, start, rest);
      InvHolds(env, start, rest);
      if Acknowledged(sys.recorders[i]) {
        AcknowledgedIsCarried(env, start, rest, i, id);
        KeptStays(env, start.shared.store, sys, event, Delivery(id));
      } else {
        MustHaveMoved(env, sys, event, i);
        NextIs(env, sys, event);
        AllKnowHolds(env, start, rest);
        if Advance(env, sys.recorders[i], sys.shared, event.now, event.fault).1.done > sys.recorders[i].done {
          AckByWrite(env, start.shared.store, sys, event, id);
        } else {
          AckByReading(env, start.shared.store, sys, event, id);
        }
      }
    }
  }

  lemma NobodyYet(env: Env, start: System, events: seq<Event>, i: nat)
    requires Initial(env, start) && i < |start.recorders|
    ensures events == [] ==> Run(env, start, events) == start && !Acknowledged(start.recorders[i])
  {
    assert start.recorders[i].step == Leasing(0);
  }
}
