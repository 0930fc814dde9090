/** The stored tables, their transactions, and the order in which a record's
    versions are read. A transaction either takes effect as a whole or leaves
    the tables as they were. */
module Tables {
  import opened Basics
  import opened Core
  import opened Things
  import opened Convert

  datatype RecordRow = RecordRow(
    state: string, kind: string, contentHash: Option<string>, createdAt: Time, updatedAt: Time)

  datatype VersionRow = VersionRow(recordId: Uuid, body: Body, createdAt: Time)

  datatype CreatedBy = CreatedBy(creator: Thing, record: Uuid, at: Time)

  datatype SnapshotEdge = SnapshotEdge(snapshot: Uuid, source: Uuid, at: Time)

  type VersionTable = map<Uuid, VersionRow>

  datatype Tables = Tables(
    records: map<Uuid, RecordRow>,
    versions: VersionTable,
    createdBy: seq<CreatedBy>,
    snapshotOf: seq<SnapshotEdge>)

  // ---- Row conversions ----

  function RecordRowOf(p: PersistedRecord): RecordRow {
    RecordRow(AsLiteral(p.state), p.kind, p.contentHash, p.createdAt, p.updatedAt)
  }

  function IntoPersisted(row: RecordRow, id: Uuid): Result<PersistedRecord, DbError> {
    match FromLiteral(row.state)
    case Ok(state) => Ok(PersistedRecord(id, state, row.kind, row.contentHash, row.createdAt, row.updatedAt))
    case Err(e) => Err(e)
  }

  function VersionRowOf(v: PersistedVersion): VersionRow {
    VersionRow(v.recordId, v.body, v.createdAt)
  }

  function PersistedOf(id: Uuid, row: VersionRow): PersistedVersion {
    PersistedVersion(id, row.recordId, row.body, row.createdAt)
  }

  // ---- Reading a chain: SELECT ... WHERE record_id ORDER BY created_at ----

  function IdsOf(vs: VersionTable, rid: Uuid): set<Uuid> {
    set k | k in vs && vs[k].recordId == rid
  }

  /** Order of two version rows: by time, rows of one instant by id. */
  predicate Before(vs: VersionTable, a: Uuid, b: Uuid)
    requires a in vs && b in vs
  {
    vs[a].createdAt < vs[b].createdAt || (vs[a].createdAt == vs[b].createdAt && a < b)
  }

  ghost predicate Ordered(vs: VersionTable, q: seq<Uuid>) {
    && (forall i | 0 <= i < |q| :: q[i] in vs)
    && (forall i, j | 0 <= i < j < |q| :: Before(vs, q[i], q[j]))
  }

  predicate IsFirst(vs: VersionTable, ids: set<Uuid>, m: Uuid)
    requires ids <= vs.Keys
  {
    m in ids && forall k | k in ids :: k == m || Before(vs, m, k)
  }

  lemma {:induction false} FirstExists(vs: VersionTable, ids: set<Uuid>)
    requires ids <= vs.Keys && ids != {}
    ensures exists m :: IsFirst(vs, ids, m)
    decreases |ids|
  {
    var m :| m in ids;
    var rest := ids - {m};
    assert forall k | k in ids :: k == m || k in rest;
    if rest == {} {
      assert IsFirst(vs, ids, m);
    } else {
      FirstExists(vs, rest);
      var n :| IsFirst(vs, rest, n);
      assert IsFirst(vs, ids, if Before(vs, n, m) then n else m);
    }
  }

  function OrderOf(vs: VersionTable, ids: set<Uuid>): (q: seq<Uuid>)
    requires ids <= vs.Keys
    ensures forall k :: k in q <==> k in ids
    ensures Ordered(vs, q)
    decreases |ids|
  {
    if ids == {} then [] else
    FirstExists(vs, ids);
    var m :| IsFirst(vs, ids, m);
    [m] + OrderOf(vs, ids - {m})
  }

  /** The version chain of a record as a read returns it. */
  function Chain(vs: VersionTable, rid: Uuid): (c: seq<PersistedVersion>) {
    var q := OrderOf(vs, IdsOf(vs, rid));
    seq(|q|, i requires 0 <= i < |q| => PersistedOf(q[i], vs[q[i]]))
  }

  // ---- Edges ----

  /** The first attribution edge of a record. */
  function EdgeOf(edges: seq<CreatedBy>, rid: Uuid): (e: Option<CreatedBy>)
    ensures e.Some? ==> e.value in edges && e.value.record == rid
    ensures e.None? ==> forall x | x in edges :: x.record != rid
  {
    if edges == [] then None
    else if edges[0].record == rid then Some(edges[0])
    else EdgeOf(edges[1..], rid)
  }

  // ---- Transactions ----

  predicate FreshVersions(vs: VersionTable, added: seq<PersistedVersion>) {
    && (forall i | 0 <= i < |added| :: added[i].id !in vs)
    && (forall i, j | 0 <= i < j < |added| :: added[i].id != added[j].id)
  }

  function WithVersions(vs: VersionTable, added: seq<PersistedVersion>): (r: VersionTable)
    ensures forall k :: k in r <==> k in vs || exists i | 0 <= i < |added| :: added[i].id == k
    ensures forall k | k in vs && (forall i | 0 <= i < |added| :: added[i].id != k) :: k in r && r[k] == vs[k]
  {
    if added == [] then vs
    else
      var last := added[|added| - 1];
      assert added == added[..|added| - 1] + [last];
      WithVersions(vs, added[..|added| - 1])[last.id := VersionRowOf(last)]
  }

  /** Creates a record, its versions and its attribution; fails when any id is taken. */
  function CreateTx(t: Tables, row: PersistedRow, creator: Thing): Option<Tables> {
    if row.record.id in t.records || !FreshVersions(t.versions, row.versions) then None
    else Some(t.(records := t.records[row.record.id := RecordRowOf(row.record)],
                 versions := WithVersions(t.versions, row.versions),
                 createdBy := t.createdBy + [CreatedBy(creator, row.record.id, row.attribution.at)]))
  }

  /** Creates one version row and touches its record if there is one; fails when the version id is taken. */
  function AppendTx(t: Tables, vid: Uuid, row: VersionRow): Option<Tables> {
    if vid in t.versions then None
    else Some(t.(versions := t.versions[vid := row],
                 records := if row.recordId in t.records
                            then t.records[row.recordId := t.records[row.recordId].(updatedAt := row.createdAt)]
                            else t.records))
  }

  /** Marks a record fixed and rewrites one version body; rows that do not exist are left alone. */
  function FixTx(t: Tables, rid: Uuid, hash: string, now: Time, vid: Uuid, body: Body): Tables {
    t.(records := if rid in t.records
                  then t.records[rid := t.records[rid].(state := "fixed", contentHash := Some(hash), updatedAt := now)]
                  else t.records,
       versions := if vid in t.versions then t.versions[vid := t.versions[vid].(body := body)] else t.versions)
  }

  function WithoutCreatedBy(edges: seq<CreatedBy>, rid: Uuid): (r: seq<CreatedBy>)
    ensures forall e :: e in r <==> e in edges && e.record != rid
  {
    if edges == [] then []
    else if edges[0].record == rid then WithoutCreatedBy(edges[1..], rid)
    else [edges[0]] + WithoutCreatedBy(edges[1..], rid)
  }

  function WithoutSnapshotEdges(edges: seq<SnapshotEdge>, rid: Uuid): (r: seq<SnapshotEdge>)
    ensures forall e :: e in r <==> e in edges && e.snapshot != rid && e.source != rid
  {
    if edges == [] then []
    else if edges[0].snapshot == rid || edges[0].source == rid then WithoutSnapshotEdges(edges[1..], rid)
    else [edges[0]] + WithoutSnapshotEdges(edges[1..], rid)
  }

  /** Removes a record with its versions and every edge at it. */
  function DeleteTx(t: Tables, rid: Uuid): Tables {
    Tables(t.records - {rid},
           t.versions - IdsOf(t.versions, rid),
           WithoutCreatedBy(t.createdBy, rid),
           WithoutSnapshotEdges(t.snapshotOf, rid))
  }

  // ---- The order is unique ----

  /** An ordered listing starts with the first row of its set. */
  lemma OrderedHead(vs: VersionTable, ids: set<Uuid>, q: seq<Uuid>, m: Uuid)
    requires Ordered(vs, q)
    requires forall k :: k in q <==> k in ids
    requires ids <= vs.Keys
    requires IsFirst(vs, ids, m)
    ensures q != [] && q[0] == m
  {
    assert m in q;
    var i :| 0 <= i < |q| && q[i] == m;
    assert q[0] in ids;
    assert i > 0 ==> Before(vs, q[0], q[i]);
  }

  lemma OrderedTail(vs: VersionTable, ids: set<Uuid>, q: seq<Uuid>)
    requires Ordered(vs, q) && q != []
    requires forall k :: k in q <==> k in ids
    ensures Ordered(vs, q[1..])
    ensures forall k :: k in q[1..] <==> k in ids - {q[0]}
  {
    forall k
      ensures k in q[1..] <==> k in ids - {q[0]}
    {
      assert q == [q[0]] + q[1..];
      if k in q[1..] {
        var j :| 1 <= j < |q| && q[j] == k;
        assert Before(vs, q[0], q[j]);
      }
    }
  }

  /** Any ordered listing of a set of version rows is the one a read returns. */
  lemma {:induction false} OrderUnique(vs: VersionTable, ids: set<Uuid>, q: seq<Uuid>)
    requires ids <= vs.Keys
    requires Ordered(vs, q)
    requires forall k :: k in q <==> k in ids
    ensures q == OrderOf(vs, ids)
    decreases |ids|
  {
    if q != [] {
      assert q[0] in ids;
    }
    if ids != {} {
      var m := OrderOf(vs, ids)[0];
      assert IsFirst(vs, ids, m);
      OrderedHead(vs, ids, q, m);
      OrderedTail(vs, ids, q);
      OrderUnique(vs, ids - {m}, q[1..]);
      assert q == [m] + q[1..];
    }
  }

  lemma {:induction false} OrderLength(vs: VersionTable, ids: set<Uuid>)
    requires ids <= vs.Keys
    ensures |OrderOf(vs, ids)| == |ids|
    decreases |ids|
  {
    if ids != {} {
      OrderLength(vs, ids - {OrderOf(vs, ids)[0]});
    }
  }

  /** A listing ordered by time alone is the read's order once no two rows share an instant. */
  lemma TimesDecideOrder(vs: VersionTable, ids: set<Uuid>, q: seq<Uuid>)
    requires ids <= vs.Keys
    requires forall k :: k in q <==> k in ids
    requires forall i, j | 0 <= i < j < |q| :: q[i] in vs && q[j] in vs && vs[q[i]].createdAt <= vs[q[j]].createdAt
    requires forall i, j | 0 <= i < j < |q| :: q[i] != q[j]
    requires forall a, b | a in ids && b in ids && vs[a].createdAt == vs[b].createdAt :: a == b
    ensures q == OrderOf(vs, ids)
  {
    forall i, j | 0 <= i < j < |q|
      ensures q[i] in vs && q[j] in vs && Before(vs, q[i], q[j])
    {
      assert q[i] in ids && q[j] in ids;
    }
    forall i | 0 <= i < |q|
      ensures q[i] in vs
    {
      assert q[i] in ids;
    }
    OrderUnique(vs, ids, q);
  }

  /** What a read of a chain holds: exactly the record's rows, each once, in order. */
  lemma ChainContents(vs: VersionTable, rid: Uuid)
    ensures forall i | 0 <= i < |Chain(vs, rid)| ::
              var v := Chain(vs, rid)[i]; v.id in vs && v == PersistedOf(v.id, vs[v.id]) && v.recordId == rid
    ensures forall i, j | 0 <= i < j < |Chain(vs, rid)| ::
              Chain(vs, rid)[i].id in vs && Chain(vs, rid)[j].id in vs
              && Before(vs, Chain(vs, rid)[i].id, Chain(vs, rid)[j].id)
    ensures forall k | k in vs && vs[k].recordId == rid :: PersistedOf(k, vs[k]) in Chain(vs, rid)
  {
    var q := OrderOf(vs, IdsOf(vs, rid));
    forall i | 0 <= i < |q|
      ensures q[i] in vs && vs[q[i]].recordId == rid
    {
      assert q[i] in IdsOf(vs, rid);
    }
    forall k | k in vs && vs[k].recordId == rid
      ensures PersistedOf(k, vs[k]) in Chain(vs, rid)
    {
      assert k in IdsOf(vs, rid);
      assert k in q;
      var i :| 0 <= i < |q| && q[i] == k;
      assert Chain(vs, rid)[i] == PersistedOf(k, vs[k]);
    }
  }

  /** A chain is read the same from two tables that hold the same rows for the record. */
  lemma ChainSame(vs: VersionTable, other: VersionTable, rid: Uuid)
    requires forall k | k in vs && vs[k].recordId == rid :: k in other && other[k] == vs[k]
    requires forall k | k in other && other[k].recordId == rid :: k in vs && vs[k] == other[k]
    ensures Chain(vs, rid) == Chain(other, rid)
  {
    var ids, q := IdsOf(vs, rid), OrderOf(vs, IdsOf(vs, rid));
    assert IdsOf(other, rid) == ids;
    forall i | 0 <= i < |q|
      ensures q[i] in other && q[i] in vs && vs[q[i]] == other[q[i]]
    {
      assert q[i] in ids;
    }
    assert Ordered(other, q);
    OrderUnique(other, ids, q);
  }

  /** Rewriting one body keeps the order of every chain and changes one place. */
  lemma ChainRewrite(vs: VersionTable, vid: Uuid, body: Body, rid: Uuid)
    requires vid in vs
    ensures var after := Chain(vs[vid := vs[vid].(body := body)], rid);
            && |after| == |Chain(vs, rid)|
            && forall i | 0 <= i < |after| ::
                 after[i] == if Chain(vs, rid)[i].id == vid then Chain(vs, rid)[i].(body := body) else Chain(vs, rid)[i]
  {
    var next := vs[vid := vs[vid].(body := body)];
    var ids, q := IdsOf(vs, rid), OrderOf(vs, IdsOf(vs, rid));
    assert IdsOf(next, rid) == ids;
    assert Ordered(next, q);
    OrderUnique(next, ids, q);
  }

  /** Every row of the record of `row` comes before `row`. */
  ghost predicate ComesLast(vs: VersionTable, vid: Uuid, row: VersionRow) {
    forall k | k in vs && vs[k].recordId == row.recordId ::
      vs[k].createdAt < row.createdAt || (vs[k].createdAt == row.createdAt && k < vid)
  }

  lemma ChainAppend(vs: VersionTable, vid: Uuid, row: VersionRow)
    requires vid !in vs && ComesLast(vs, vid, row)
    ensures Chain(vs[vid := row], row.recordId) == Chain(vs, row.recordId) + [PersistedOf(vid, row)]
  {
    var next, rid := vs[vid := row], row.recordId;
    var ids, q := IdsOf(vs, rid), OrderOf(vs, IdsOf(vs, rid));
    assert IdsOf(next, rid) == ids + {vid};
    var longer := q + [vid];
    forall i | 0 <= i < |q|
      ensures q[i] in vs && q[i] in next && next[q[i]] == vs[q[i]] && Before(next, q[i], vid)
    {
      assert q[i] in ids;
    }
    assert Ordered(next, longer) by {
      forall i, j | 0 <= i < j < |longer|
        ensures longer[i] in next && longer[j] in next && Before(next, longer[i], longer[j])
      {
        if j < |q| { assert Before(vs, q[i], q[j]); }
      }
    }
    OrderUnique(next, ids + {vid}, longer);
  }

  /** A row that reads as the last of its chain comes after every row there. */
  lemma LastInChain(vs: VersionTable, vid: Uuid, row: VersionRow)
    requires vid !in vs
    requires Chain(vs[vid := row], row.recordId) == Chain(vs, row.recordId) + [PersistedOf(vid, row)]
    ensures ComesLast(vs, vid, row)
  {
    var next, rid := vs[vid := row], row.recordId;
    var c := Chain(vs, rid);
    ChainContents(next, rid);
    ChainContents(vs, rid);
    forall k | k in vs && vs[k].recordId == rid
      ensures Before(next, k, vid)
    {
      var i :| 0 <= i < |c| && c[i] == PersistedOf(k, vs[k]);
      assert Chain(next, rid)[i].id == k && Chain(next, rid)[|c|].id == vid;
    }
  }

  /** A new row lands at the end of its chain exactly when it comes after every row there. */
  lemma ChainAppendIff(vs: VersionTable, vid: Uuid, row: VersionRow)
    requires vid !in vs
    ensures Chain(vs[vid := row], row.recordId) == Chain(vs, row.recordId) + [PersistedOf(vid, row)] <==>
            ComesLast(vs, vid, row)
  {
    if ComesLast(vs, vid, row) {
      ChainAppend(vs, vid, row);
    } else if Chain(vs[vid := row], row.recordId) == Chain(vs, row.recordId) + [PersistedOf(vid, row)] {
      LastInChain(vs, vid, row);
      assert false;
    }
  }

  /** A chain is empty exactly when the record has no version rows. */
  lemma ChainNonEmpty(vs: VersionTable, rid: Uuid)
    ensures Chain(vs, rid) != [] <==> exists k :: k in vs && vs[k].recordId == rid
  {
    ChainContents(vs, rid);
    if Chain(vs, rid) != [] {
      var v := Chain(vs, rid)[0];
      assert v.id in vs && vs[v.id].recordId == rid;
    }
  }

  /** Rows written in one transaction, looked up by id. */
  lemma {:induction false} WithVersionsAt(vs: VersionTable, added: seq<PersistedVersion>, i: nat)
    requires i < |added|
    requires forall a, b | 0 <= a < b < |added| :: added[a].id != added[b].id
    ensures added[i].id in WithVersions(vs, added) && WithVersions(vs, added)[added[i].id] == VersionRowOf(added[i])
  {
    if i < |added| - 1 {
      WithVersionsAt(vs, added[..|added| - 1], i);
    }
  }
}
