/** A fixed record is frozen: without overlap no later step changes what a
    read of it returns, and every request that arrives later sees that record. */
module Frozen {
  import opened Basics
  import opened Digests
  import opened Core
  import opened Things
  import opened Convert
  import opened Tables
  import opened Load
  import opened Storage
  import opened Server
  import opened Integrity
  import opened Fossils

  /** Everything a read of `id` looks at is the same in both. */
  ghost predicate Kept(t: Tables, u: Tables, id: Uuid) {
    && id in t.records && id in u.records
    && t.records[id].(updatedAt := 0) == u.records[id].(updatedAt := 0)
    && Chain(t.versions, id) == Chain(u.versions, id)
    && EdgeOf(t.createdBy, id) == EdgeOf(u.createdBy, id)
  }

  ghost predicate IsFixed(t: Tables, id: Uuid) {
    id in t.records && t.records[id].state == "fixed"
  }

  lemma SameForKept(t: Tables, u: Tables, id: Uuid)
    requires SameFor(t, u, id) && id in t.records
    ensures Kept(t, u, id)
  {
    ChainSame(t.versions, u.versions, id);
  }

  /** Committing a fixed record a second time writes what is already there. */
  lemma SecondCommitKeeps(env: Env, t: Tables, blobs: Blobs, id: Uuid, h: Digest, now: Time)
    requires HasVersion(t, id) && id in t.records && t.records[id].state == "fixed"
    requires FossilOk(env, t, blobs, id) && Ready(env, t, blobs, id, h)
    ensures Kept(t, FixTx(t, id, HexOf(h), now, Tail(t, id).id, Hardened(Tail(t, id).body, h)), id)
  {
    ParseInvertsDisplay(t.records[id].contentHash.value, h);
    TailIsRow(t, id);
    var vid := Tail(t, id).id;
    assert t.versions[vid := t.versions[vid].(body := Hardened(Tail(t, id).body, h))] == t.versions;
  }

  lemma CreateKeeps(t: Tables, r: Record, creator: string, now: Time, who: Thing, id: Uuid)
    requires id in t.records && CreateTx(t, RecordToRow(r, creator, now), who).Some?
    ensures Kept(t, CreateTx(t, RecordToRow(r, creator, now), who).value, id)
  {
    CreateFrames(t, RecordToRow(r, creator, now), who, id);
    SameForKept(t, CreateTx(t, RecordToRow(r, creator, now), who).value, id);
  }

  lemma CommitKeepsOthers(t: Tables, rid: Uuid, h: Digest, now: Time, vid: Uuid, body: Body, id: Uuid)
    requires id in t.records && id != rid && vid in t.versions && t.versions[vid].recordId == rid
    ensures Kept(t, FixTx(t, rid, HexOf(h), now, vid, body), id)
  {
    FixFrames(t, rid, HexOf(h), now, vid, body, id);
    SameForKept(t, FixTx(t, rid, HexOf(h), now, vid, body), id);
  }

  /** The tables part of one step keeps every fixed record. */
  lemma StepKeepsFixed(env: Env, t: Tables, blobs: Blobs, pc: Pc, id: Uuid)
    requires PcOk(env, t, blobs, pc) && PutSound(t, pc) && FixSound(env, t, blobs, pc)
    requires IsFixed(t, id) && HasVersion(t, id) && FossilOk(env, t, blobs, id)
    ensures Kept(t, TablesAfter(t, pc), id)
  {
    match pc {
      case SaveCreate(r, creator, now) =>
        if CreateTx(t, RecordToRow(r, creator, now), ParseThing(creator).value).Some? {
          CreateKeeps(t, r, creator, now, ParseThing(creator).value, id);
        }
      case Appending(rid, vid, row) =>
        if AppendTx(t, vid, row).Some? {
          AppendFrames(t, vid, row, id);
          SameForKept(t, AppendTx(t, vid, row).value, id);
        }
      case Committing(rid, h, now, vid, body) =>
        if rid == id {
          SecondCommitKeeps(env, t, blobs, id, h, now);
        } else {
          CommitKeepsOthers(t, rid, h, now, vid, body, id);
        }
      case _ =>
    }
  }

  lemma ApplyKeepsFixed(env: Env, s: Sys, a: Action, id: Uuid)
    requires Inv(env, s) && Sound(env, s) && Apart(s.procs)
    requires IsFixed(s.tables, id)
    ensures Kept(s.tables, Apply(env, s, a).tables, id)
  {
    if a.Step? && a.pid in s.procs {
      assert PcOk(env, s.tables, s.blobs, s.procs[a.pid].pc);
      assert FossilOk(env, s.tables, s.blobs, id);
      StepKeepsFixed(env, s.tables, s.blobs, s.procs[a.pid].pc, id);
    }
  }

  // ---- Requests that arrive after the record was fixed ----

  /** What a read of `id` has so far is what the tables still say. */
  ghost predicate Caught(t: Tables, id: Uuid, reading: Reading)
    requires id in t.records
  {
    match reading
    case ReadRecord => true
    case ReadVersions(row) => CaughtRow(t, id, row)
    case ReadEdge(row, versions) => CaughtRow(t, id, row) && versions == Chain(t.versions, id)
  }

  ghost predicate CaughtRow(t: Tables, id: Uuid, row: PersistedRecord)
    requires id in t.records
  {
    IntoPersisted(t.records[id].(updatedAt := 0), id) == Ok(row.(updatedAt := 0))
  }

  lemma CaughtKept(t: Tables, u: Tables, id: Uuid, reading: Reading)
    requires Kept(t, u, id) && Caught(t, id, reading)
    ensures Caught(u, id, reading)
  {
  }

  /** A read that has caught everything so far goes on catching, and ends with the record a find would return. */
  lemma CaughtStep(t: Tables, id: Uuid, reading: Reading)
    requires id in t.records && Find(t, id).Ok? && Caught(t, id, reading)
    ensures match ReadStep(t, id, reading)
            case More(further) => Caught(t, id, further)
            case Found(l) => Find(t, id) == Ok(Some(l))
            case _ => false
  {
    if reading.ReadEdge? {
      var now := IntoPersisted(t.records[id], id).value;
      assert now.(updatedAt := 0) == reading.row.(updatedAt := 0);
      var e := EdgeOf(t.createdBy, id);
      if e.Some? {
        var a := AttributionOf(e.value);
        LoadIgnoresTimes(PersistedRow(now, reading.versions, a), PersistedRow(reading.row, reading.versions, a));
      }
    }
  }

  /** How a request on the fixed record `id` that arrived late can stand. */
  ghost predicate Late(t: Tables, id: Uuid, p: Proc, l: Loaded)
    requires id in t.records
  {
    match p.req
    case GetRecord(rid) => rid == id ==>
      (p.pc.Finding? && p.pc.id == id && p.pc.next.Reply? && Caught(t, id, p.pc.reading))
      || p.pc == Done(Shown(RowOf(l.record, l.attribution))) || p.pc == Done(Aborted)
    case PutRecord(rid, _) => rid == id ==>
      (p.pc.Finding? && p.pc.id == id && p.pc.next.CheckPut? && Caught(t, id, p.pc.reading))
      || p.pc == Done(StateConflict(Fixed)) || p.pc == Done(Aborted)
    case FixRecord(rid, text) => rid == id ==>
      (p.pc.Finding? && p.pc.id == id && p.pc.next.CheckFix? && Caught(t, id, p.pc.reading))
      || (p.pc == Done(BadRequest) && ParseHexApi(text).None?)
      || p.pc == Done(StateConflict(Fixed)) || p.pc == Done(Aborted)
    case _ => true
  }

  lemma LateKept(t: Tables, u: Tables, id: Uuid, p: Proc, l: Loaded)
    requires Kept(t, u, id) && Late(t, id, p, l)
    ensures Late(u, id, p, l)
  {
    if p.pc.Finding? && p.pc.id == id && Caught(t, id, p.pc.reading) {
      CaughtKept(t, u, id, p.pc.reading);
    }
  }

  lemma LateStep(env: Env, t: Tables, blobs: Blobs, id: Uuid, p: Proc, l: Loaded, mint: Mint)
    requires id in t.records && Find(t, id) == Ok(Some(l)) && l.record.state.Fixed?
    requires Late(t, id, p, l)
    ensures Late(t, id, p.(pc := PcAfter(env, t, blobs, p.pc, mint)), l)
  {
    if p.pc.Finding? && p.pc.id == id && Caught(t, id, p.pc.reading) {
      CaughtStep(t, id, p.pc.reading);
    }
  }

  /** Every request the system did not have in `earlier` stands as a late one. */
  ghost predicate AllLate(s: Sys, earlier: set<nat>, id: Uuid, l: Loaded) {
    && id in s.tables.records
    && forall p | p in s.procs && p !in earlier :: Late(s.tables, id, s.procs[p], l)
  }

  lemma ApplyKeepsLate(env: Env, s: Sys, a: Action, earlier: set<nat>, id: Uuid, l: Loaded)
    requires Kept(s.tables, Apply(env, s, a).tables, id)
    requires Find(s.tables, id) == Ok(Some(l)) && l.record.state.Fixed?
    requires earlier <= s.procs.Keys && AllLate(s, earlier, id, l)
    ensures AllLate(Apply(env, s, a), earlier, id, l)
  {
    var n := Apply(env, s, a);
    forall p | p in n.procs && p !in earlier
      ensures Late(n.tables, id, n.procs[p], l)
    {
      match a {
        case Start(pid, _, _) =>
          if p != pid || pid in s.procs { LateKept(s.tables, n.tables, id, s.procs[p], l); }
        case Abort(pid) =>
          LateKept(s.tables, n.tables, id, s.procs[p], l);
        case Step(pid, mint) =>
          if p == pid {
            LateStep(env, s.tables, s.blobs, id, s.procs[p], l, mint);
            LateKept(s.tables, n.tables, id, n.procs[p], l);
          } else {
            LateKept(s.tables, n.tables, id, s.procs[p], l);
          }
      }
    }
  }

  lemma KeptTransitive(t: Tables, u: Tables, v: Tables, id: Uuid)
    requires Kept(t, u, id) && Kept(u, v, id)
    ensures Kept(t, v, id)
  {
  }

  lemma KeptFind(t: Tables, u: Tables, id: Uuid)
    requires Kept(t, u, id)
    ensures Find(t, id) == Find(u, id)
  {
    var x, y := IntoPersisted(t.records[id], id), IntoPersisted(u.records[id], id);
    var e := EdgeOf(t.createdBy, id);
    if x.Ok? && e.Some? {
      LoadIgnoresTimes(PersistedRow(x.value, Chain(t.versions, id), AttributionOf(e.value)),
                       PersistedRow(y.value, Chain(u.versions, id), AttributionOf(e.value)));
    }
  }

  lemma FoundIsFixed(t: Tables, id: Uuid, l: Loaded)
    requires Find(t, id) == Ok(Some(l)) && l.record.state.Fixed?
    ensures IsFixed(t, id)
  {
    FoundRows(t, id);
  }

  lemma FoundStays(env: Env, s: Sys, a: Action, id: Uuid, l: Loaded)
    requires Inv(env, s) && Sound(env, s) && Apart(s.procs)
    requires Find(s.tables, id) == Ok(Some(l)) && l.record.state.Fixed?
    ensures Kept(s.tables, Apply(env, s, a).tables, id) && Find(Apply(env, s, a).tables, id) == Ok(Some(l))
  {
    FoundIsFixed(s.tables, id, l);
    ApplyKeepsFixed(env, s, a, id);
    KeptFind(s.tables, Apply(env, s, a).tables, id);
  }

  /** From state `a` to state `b` the rows of the fixed record were kept, and
      every request that has arrived between stands as a late one. */
  ghost predicate StaysFrozen(a: Sys, b: Sys, id: Uuid, l: Loaded) {
    && Kept(a.tables, b.tables, id) && Find(b.tables, id) == Ok(Some(l))
    && a.procs.Keys <= b.procs.Keys && AllLate(b, a.procs.Keys, id, l)
  }

  lemma FrozenStep(env: Env, a: Sys, s: Sys, act: Action, id: Uuid, l: Loaded)
    requires Inv(env, s) && Sound(env, s) && Apart(s.procs)
    requires StaysFrozen(a, s, id, l) && l.record.state.Fixed?
    ensures StaysFrozen(a, Apply(env, s, act), id, l)
  {
    FoundStays(env, s, act, id, l);
    StaysLate(env, a, s, act, id, l);
  }

  lemma StaysLate(env: Env, a: Sys, s: Sys, act: Action, id: Uuid, l: Loaded)
    requires StaysFrozen(a, s, id, l) && l.record.state.Fixed?
    requires Kept(s.tables, Apply(env, s, act).tables, id) && Find(Apply(env, s, act).tables, id) == Ok(Some(l))
    ensures StaysFrozen(a, Apply(env, s, act), id, l)
  {
    ApplyKeepsLate(env, s, act, a.procs.Keys, id, l);
    KeptTransitive(a.tables, s.tables, Apply(env, s, act).tables, id);
  }

  /** From the moment a record is fixed its rows are kept to the end of the
      run, and every request that arrives from then on stands as a late one. */
  lemma {:induction false} FrozenFrom(env: Env, s: Sys, run: seq<Action>, i: nat, id: Uuid, l: Loaded)
    requires Initial(env, s) && AllFossilsOk(env, s.tables, s.blobs)
    requires NoOverlap(env, s, run) && i <= |run|
    requires Find(Exec(env, s, run[..i]).tables, id) == Ok(Some(l)) && l.record.state.Fixed?
    ensures StaysFrozen(Exec(env, s, run[..i]), Exec(env, s, run), id, l)
    decreases |run|
  {
    if i == |run| {
      assert run[..i] == run;
    } else {
      var shorter := run[..|run| - 1];
      NoOverlapPrefix(env, s, run, |run| - 1);
      assert shorter[..i] == run[..i];
      FrozenFrom(env, s, shorter, i, id, l);
      FossilsAlwaysOk(env, s, shorter);
      FrozenStep(env, Exec(env, s, run[..i]), Exec(env, s, shorter), run[|run| - 1], id, l);
    }
  }

  /** Once a record is found fixed, a find at any later moment of a run
      without overlap returns the same record, digest, chain and creator. */
  lemma FixedIsFrozen(env: Env, s: Sys, run: seq<Action>, i: nat, j: nat, id: Uuid, l: Loaded)
    requires Initial(env, s) && AllFossilsOk(env, s.tables, s.blobs)
    requires NoOverlap(env, s, run) && i <= j <= |run|
    requires Find(Exec(env, s, run[..i]).tables, id) == Ok(Some(l)) && l.record.state.Fixed?
    ensures Find(Exec(env, s, run[..j]).tables, id) == Ok(Some(l))
  {
    NoOverlapPrefix(env, s, run, j);
    assert run[..j][..i] == run[..i];
    FrozenFrom(env, s, run[..j], i, id, l);
  }

  /** What a request that arrives after the record was fixed is answered, its
      three reads spread over any interference: a GET shows exactly the fixed
      record, a PUT and a fix are refused. */
  lemma LateRequestsSeeTheFossil(env: Env, s: Sys, run: seq<Action>, i: nat, pid: nat, id: Uuid, l: Loaded)
    requires Initial(env, s) && AllFossilsOk(env, s.tables, s.blobs)
    requires NoOverlap(env, s, run) && i <= |run|
    requires Find(Exec(env, s, run[..i]).tables, id) == Ok(Some(l)) && l.record.state.Fixed?
    requires pid !in Exec(env, s, run[..i]).procs
    requires pid in Exec(env, s, run).procs && Exec(env, s, run).procs[pid].pc.Done?
    ensures var p := Exec(env, s, run).procs[pid];
            match p.req
            case GetRecord(rid) => rid == id ==> p.pc.resp in {Shown(RowOf(l.record, l.attribution)), Aborted}
            case PutRecord(rid, _) => rid == id ==> p.pc.resp in {StateConflict(Fixed), Aborted}
            case FixRecord(rid, text) => rid == id ==>
              p.pc.resp in {StateConflict(Fixed), Aborted} || (p.pc.resp.BadRequest? && ParseHexApi(text).None?)
            case _ => true
  {
    FrozenFrom(env, s, run, i, id, l);
    assert Late(Exec(env, s, run).tables, id, Exec(env, s, run).procs[pid], l);
  }

  // ---- Exactly which transactions would thaw a record ----

  lemma LongerAfterAppend(t: Tables, vid: Uuid, row: VersionRow)
    requires AppendTx(t, vid, row).Some?
    ensures |Chain(AppendTx(t, vid, row).value.versions, row.recordId)| == |Chain(t.versions, row.recordId)| + 1
  {
    var id, after := row.recordId, t.versions[vid := row];
    OrderLength(t.versions, IdsOf(t.versions, id));
    OrderLength(after, IdsOf(after, id));
    assert IdsOf(after, id) == IdsOf(t.versions, id) + {vid};
  }

  /** An append leaves the read of an existing record as it was exactly when it is for another record. */
  lemma AppendThawsIff(t: Tables, vid: Uuid, row: VersionRow, id: Uuid)
    requires Find(t, id).Ok? && Find(t, id).value.Some?
    requires AppendTx(t, vid, row).Some?
    ensures Find(AppendTx(t, vid, row).value, id) == Find(t, id) <==> row.recordId != id
  {
    var u := AppendTx(t, vid, row).value;
    if row.recordId != id {
      AppendFrames(t, vid, row, id);
      FindSame(t, u, id);
    } else if Find(u, id) == Find(t, id) {
      FoundRows(t, id);
      FoundRows(u, id);
      LongerAfterAppend(t, vid, row);
      assert false;
    }
  }

  /** Committing to a fixed record leaves the read of it as it was exactly when it writes the digest and the body that are there. */
  lemma CommitThawsIff(t: Tables, id: Uuid, h: Digest, now: Time, vid: Uuid, body: Body, l: Loaded)
    requires Find(t, id) == Ok(Some(l)) && l.record.state.Fixed?
    requires vid in t.versions && t.versions[vid].recordId == id
    ensures Find(FixTx(t, id, HexOf(h), now, vid, body), id) == Ok(Some(l)) <==>
            Some(h) == l.record.hash && body == t.versions[vid].body
  {
    var u := FixTx(t, id, HexOf(h), now, vid, body);
    FoundRows(t, id);
    ParseOfDisplay(h);
    ParseInvertsDisplay(t.records[id].contentHash.value, l.record.hash.value);
    if Some(h) == l.record.hash && body == t.versions[vid].body {
      assert u.versions == t.versions;
      KeptFind(t, u, id);
    }
    if Find(u, id) == Ok(Some(l)) {
      FoundRows(u, id);
      BodyIsRead(t, u, vid, body, id);
    }
  }

  /** Two chains that load alike hold the same body for each row. */
  lemma BodyIsRead(t: Tables, u: Tables, vid: Uuid, body: Body, id: Uuid)
    requires vid in t.versions && t.versions[vid].recordId == id
    requires u.versions == t.versions[vid := t.versions[vid].(body := body)]
    requires VersionsFromPersisted(Chain(t.versions, id)) == VersionsFromPersisted(Chain(u.versions, id))
    ensures body == t.versions[vid].body
  {
    ChainContents(t.versions, id);
    ChainRewrite(t.versions, vid, body, id);
    var c, d := Chain(t.versions, id), Chain(u.versions, id);
    var i :| 0 <= i < |c| && c[i] == PersistedOf(vid, t.versions[vid]);
    assert VersionsFromPersisted(c)[i] == VersionsFromPersisted(d)[i];
  }
}
