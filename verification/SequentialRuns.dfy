/** Sequences of repository operations, on the tables and on the store of
    records they stand for, step in step. */
module SequentialRuns {
  import opened Basics
  import opened Digests
  import opened Core
  import opened Things
  import opened Convert
  import opened Tables
  import opened Load
  import opened Refinement

  datatype Op =
    | Save(r: Record, creator: string, now: Time)
    | AddVersion(id: Uuid, vid: Uuid, body: Body, now: Time)
    | TransitionToFixed(id: Uuid, h: Digest, now: Time)
    | Delete(id: Uuid)

  /** One operation on the tables. */
  function OnTables(t: Tables, op: Op): Tables {
    match op
    case Save(r, creator, now) => SaveResult(t, r, creator, now).1
    case AddVersion(id, vid, body, now) =>
      (match AppendTx(t, vid, VersionRow(id, body, now))
       case Some(u) => u
       case None => t)
    case TransitionToFixed(id, h, now) => TransitionResult(t, id, h, now).1
    case Delete(id) => DeleteResult(t, id).1
  }

  /** The same operation on records: insert, update, fix, remove. */
  function OnStore(m: Store, op: Op): Store {
    match op
    case Save(r, creator, now) =>
      if r.state.Snapshot? || r.id in m then m else m[r.id := Loaded(r, Attribution(creator, now))]
    case AddVersion(id, vid, body, _) =>
      if id in m then m[id := m[id].(record := Updated(m[id].record, Version(vid, body)))] else m
    case TransitionToFixed(id, h, _) =>
      if id in m && !m[id].record.state.Fixed? then m[id := m[id].(record := Fossil(m[id].record, h))] else m
    case Delete(id) => m - {id}
  }

  /** How callers use an operation: what a save is to store has ids minted in
      order and not taken and a plain kind and creator; appends go only to
      mutable records and come later than their chain. */
  ghost predicate Allowed(t: Tables, op: Op) {
    match op
    case Save(r, creator, now) =>
      && Proper(r)
      && (r.state.Snapshot? || r.id in t.records ||
          (Ascending(r.versions) && !Disguised(r.kind) && '`' !in creator && ParseThing(creator).Ok?
           && FreshVersions(t.versions, RecordToRow(r, creator, now).versions)))
    case AddVersion(id, vid, body, now) =>
      && id in Abs(t) && Abs(t)[id].record.state.Mutable?
      && vid !in t.versions && ComesLast(t.versions, vid, VersionRow(id, body, now))
    case _ => true
  }

  function RunTables(t: Tables, ops: seq<Op>): Tables
    decreases |ops|
  {
    if ops == [] then t else OnTables(RunTables(t, ops[..|ops| - 1]), ops[|ops| - 1])
  }

  function RunStore(m: Store, ops: seq<Op>): Store
    decreases |ops|
  {
    if ops == [] then m else OnStore(RunStore(m, ops[..|ops| - 1]), ops[|ops| - 1])
  }

  lemma SaveStores(t: Tables, r: Record, creator: string, now: Time)
    requires WellFormed(t) && Allowed(t, Save(r, creator, now)) && !r.state.Snapshot? && r.id !in t.records
    ensures Abs(SaveResult(t, r, creator, now).1) == Abs(t)[r.id := Loaded(r, Attribution(creator, now))]
  {
    SaveInserts(t, r, creator, now);
    SaveLoadsBackIff(t, r, creator, now);
    StoreAt(SaveResult(t, r, creator, now).1, r.id);
  }

  lemma SaveRefines(t: Tables, r: Record, creator: string, now: Time)
    requires WellFormed(t) && Allowed(t, Save(r, creator, now))
    ensures Abs(OnTables(t, Save(r, creator, now))) == OnStore(Abs(t), Save(r, creator, now))
  {
    AbsHoldsAll(t, r.id);
    if !r.state.Snapshot? && r.id !in t.records {
      SaveStores(t, r, creator, now);
    }
  }

  lemma AppendRefines(t: Tables, id: Uuid, vid: Uuid, body: Body, now: Time)
    requires WellFormed(t) && Allowed(t, AddVersion(id, vid, body, now))
    ensures Abs(OnTables(t, AddVersion(id, vid, body, now))) == OnStore(Abs(t), AddVersion(id, vid, body, now))
    ensures WellFormed(OnTables(t, AddVersion(id, vid, body, now)))
  {
    AbsHoldsAll(t, id);
    AppendIsUpdateIff(t, vid, VersionRow(id, body, now), Abs(t)[id]);
    AppendKeepsWellFormed(t, vid, VersionRow(id, body, now));
  }

  lemma TransitionRefines(t: Tables, id: Uuid, h: Digest, now: Time)
    requires WellFormed(t)
    ensures Abs(OnTables(t, TransitionToFixed(id, h, now))) == OnStore(Abs(t), TransitionToFixed(id, h, now))
    ensures WellFormed(OnTables(t, TransitionToFixed(id, h, now)))
  {
    TransitionSucceedsIff(t, id, h, now);
    if TransitionResult(t, id, h, now).0.Ok? {
      TransitionStores(t, id, h, now);
    }
  }

  lemma TransitionStores(t: Tables, id: Uuid, h: Digest, now: Time)
    requires WellFormed(t) && id in Abs(t) && !Abs(t)[id].record.state.Fixed?
    ensures Abs(TransitionResult(t, id, h, now).1) == Abs(t)[id := Abs(t)[id].(record := Fossil(Abs(t)[id].record, h))]
    ensures WellFormed(TransitionResult(t, id, h, now).1)
  {
    AbsHoldsAll(t, id);
    TransitionIsFix(t, id, h, now, Abs(t)[id]);
  }

  lemma OpRefines(t: Tables, op: Op)
    requires WellFormed(t) && Allowed(t, op)
    ensures WellFormed(OnTables(t, op)) && Abs(OnTables(t, op)) == OnStore(Abs(t), op)
  {
    match op {
      case Save(r, creator, now) =>
        SaveRefines(t, r, creator, now);
        SaveInserts(t, r, creator, now);
      case AddVersion(id, vid, body, now) => AppendRefines(t, id, vid, body, now);
      case TransitionToFixed(id, h, now) => TransitionRefines(t, id, h, now);
      case Delete(id) =>
        DeleteRemoves(t, id);
        DeleteKeepsWellFormed(t, id);
    }
  }

  /** Any sequence of allowed operations leaves the tables standing for
      exactly the store that the record operations lead to. */
  lemma {:induction false} RunsRefine(t: Tables, ops: seq<Op>)
    requires WellFormed(t)
    requires forall k | 0 <= k < |ops| :: Allowed(RunTables(t, ops[..k]), ops[k])
    ensures WellFormed(RunTables(t, ops))
    ensures Abs(RunTables(t, ops)) == RunStore(Abs(t), ops)
    decreases |ops|
  {
    if ops != [] {
      var shorter := ops[..|ops| - 1];
      forall k | 0 <= k < |shorter|
        ensures Allowed(RunTables(t, shorter[..k]), shorter[k])
      {
        assert shorter[..k] == ops[..k];
      }
      RunsRefine(t, shorter);
      OpRefines(RunTables(t, shorter), ops[|ops| - 1]);
    }
  }

  /** From an empty database every sequence of allowed operations stands for what it does to an empty store. */
  lemma RunsFromEmpty(ops: seq<Op>)
    requires forall k | 0 <= k < |ops| :: Allowed(RunTables(Tables(map[], map[], [], []), ops[..k]), ops[k])
    ensures Abs(RunTables(Tables(map[], map[], [], []), ops)) == RunStore(map[], ops)
  {
    EmptyWellFormed();
    RunsRefine(Tables(map[], map[], [], []), ops);
  }

  // ---- Annual rings ----

  /** `b` is `a` grown older: same id and kind, at most fixed meanwhile, every
      version still in its place under its id, its body at most moved to a fossil key. */
  ghost predicate Continues(a: Record, b: Record) {
    && b.id == a.id && b.kind == a.kind && (b.state == a.state || b.state.Fixed?)
    && |a.versions| <= |b.versions|
    && forall i | 0 <= i < |a.versions| ::
         b.versions[i].id == a.versions[i].id && BodyMoves(a.versions[i].body, b.versions[i].body)
  }

  lemma ContinuesTransitive(a: Record, b: Record, c: Record)
    requires Continues(a, b) && Continues(b, c)
    ensures Continues(a, c)
  {
  }

  lemma UpdatedContinues(r: Record, v: Version)
    ensures Continues(r, Updated(r, v))
  {
    UpdateKeepsHistory(r, v);
  }

  lemma FossilContinues(r: Record, h: Digest)
    ensures Continues(r, Fossil(r, h))
  {
    forall i | 0 <= i < |r.versions|
      ensures Fossil(r, h).versions[i].id == r.versions[i].id
      ensures BodyMoves(r.versions[i].body, Fossil(r, h).versions[i].body)
    {
      FossilKeepsRings(r, h, i);
    }
  }

  lemma OpContinues(m: Store, op: Op, id: Uuid)
    requires id in m && op != Delete(id)
    ensures id in OnStore(m, op) && Continues(m[id].record, OnStore(m, op)[id].record)
  {
    if op.AddVersion? && op.id == id {
      UpdatedContinues(m[id].record, Version(op.vid, op.body));
    }
    if op.TransitionToFixed? && op.id == id {
      FossilContinues(m[id].record, op.h);
    }
  }

  lemma {:induction false} StoreContinues(m: Store, ops: seq<Op>, id: Uuid)
    requires id in m && Delete(id) !in ops
    ensures id in RunStore(m, ops) && Continues(m[id].record, RunStore(m, ops)[id].record)
    decreases |ops|
  {
    if ops != [] {
      var before := RunStore(m, ops[..|ops| - 1]);
      StoreContinues(m, ops[..|ops| - 1], id);
      OpContinues(before, ops[|ops| - 1], id);
      ContinuesTransitive(m[id].record, before[id].record, RunStore(m, ops)[id].record);
    }
  }

  /** Over any sequence of allowed operations that does not delete it, a stored
      record keeps every version in its place. */
  lemma RunsContinue(t: Tables, ops: seq<Op>, id: Uuid)
    requires WellFormed(t) && id in Abs(t) && Delete(id) !in ops
    requires forall k | 0 <= k < |ops| :: Allowed(RunTables(t, ops[..k]), ops[k])
    ensures id in Abs(RunTables(t, ops)) && Continues(Abs(t)[id].record, Abs(RunTables(t, ops))[id].record)
  {
    RunsRefine(t, ops);
    StoreContinues(Abs(t), ops, id);
  }
}
