/** The repository as the object it is: a handle on tables that its methods
    read and change, one query after the other. Each method is proved against
    the function of the tables that says what it does. */
module Repository {
  import opened Basics
  import opened Digests
  import opened Core
  import opened Things
  import opened Convert
  import opened Tables
  import opened Load
  import opened Refinement

  lemma StageRows(vs: VersionTable, added: seq<PersistedVersion>, i: nat)
    requires i < |added|
    ensures WithVersions(vs, added[..i + 1]) == WithVersions(vs, added[..i])[added[i].id := VersionRowOf(added[i])]
  {
    var next := added[..i + 1];
    assert next[..i] == added[..i];
  }

  /** Staging one more row: it is fresh exactly when its id is neither stored nor among those staged. */
  lemma StageFresh(vs: VersionTable, added: seq<PersistedVersion>, i: nat)
    requires i < |added| && FreshVersions(vs, added[..i])
    ensures FreshVersions(vs, added[..i + 1]) <==>
            added[i].id !in vs && forall j | 0 <= j < i :: added[j].id != added[i].id
    ensures FreshVersions(vs, added) ==> FreshVersions(vs, added[..i + 1])
  {
    var now, next := added[..i], added[..i + 1];
    assert forall j | 0 <= j < i :: now[j] == added[j] && next[j] == added[j];
    assert next[i] == added[i];
  }

  lemma StageStep(vs: VersionTable, added: seq<PersistedVersion>, i: nat)
    requires i < |added| && FreshVersions(vs, added[..i])
    ensures added[i].id in WithVersions(vs, added[..i]) ==> !FreshVersions(vs, added)
    ensures added[i].id !in WithVersions(vs, added[..i]) ==> FreshVersions(vs, added[..i + 1])
  {
    var now := added[..i];
    StageFresh(vs, added, i);
    assert forall j | 0 <= j < i :: now[j] == added[j];
    if added[i].id !in WithVersions(vs, now) {
      assert forall j | 0 <= j < i :: now[j].id != added[i].id;
    }
  }

  class RecordRepository {
    var records: map<Uuid, RecordRow>
    var versions: VersionTable
    var createdBy: seq<CreatedBy>
    var snapshotOf: seq<SnapshotEdge>

    ghost function Db(): Tables
      reads this
    {
      Tables(records, versions, createdBy, snapshotOf)
    }

    constructor ()
      ensures Db() == Tables(map[], map[], [], [])
    {
      records, versions, createdBy, snapshotOf := map[], map[], [], [];
    }

    method SelectRecord(id: Uuid) returns (row: Option<RecordRow>)
      ensures row == if id in records then Some(records[id]) else None
    {
      if id in records {
        row := Some(records[id]);
      } else {
        row := None;
      }
    }

    method FetchVersions(id: Uuid) returns (vs: seq<PersistedVersion>)
      ensures vs == Chain(versions, id)
    {
      var ids := OrderOf(versions, IdsOf(versions, id));
      vs := [];
      for i := 0 to |ids|
        invariant |vs| == i
        invariant forall k | 0 <= k < i :: vs[k] == PersistedOf(ids[k], versions[ids[k]])
      {
        vs := vs + [PersistedOf(ids[i], versions[ids[i]])];
      }
    }

    method FetchAttribution(id: Uuid) returns (a: Option<Attribution>)
      ensures a == match EdgeOf(createdBy, id) case Some(e) => Some(AttributionOf(e)) case None => None
    {
      var e := EdgeOf(createdBy, id);
      match e {
        case Some(edge) => a := Some(Attribution(StripBackticks(edge.creator.table + ":" + edge.creator.key), edge.at));
        case None => a := None;
      }
    }

    /** The three reads that make up a record. */
    method Assemble(id: Uuid) returns (r: Result<Option<Loaded>, DbError>)
      ensures r == Find(Db(), id)
    {
      var found := SelectRecord(id);
      if found.None? {
        return Ok(None);
      }
      var persisted := IntoPersisted(found.value, id);
      if persisted.Err? {
        return Err(persisted.error);
      }
      var vs := FetchVersions(id);
      var attribution := FetchAttribution(id);
      if attribution.None? {
        return Err(NoAttribution(id));
      }
      var any := RowToAny(PersistedRow(persisted.value, vs, attribution.value));
      match any {
        case Err(e) => r := Err(e);
        case Ok(record) => r := Ok(Some(Loaded(record, attribution.value)));
      }
    }

    /** The version rows of a transaction, created one after the other; fails at the first id that is taken. */
    method StageVersions(added: seq<PersistedVersion>) returns (staged: Option<VersionTable>)
      ensures staged == if FreshVersions(versions, added) then Some(WithVersions(versions, added)) else None
    {
      var rows := versions;
      for i := 0 to |added|
        invariant rows == WithVersions(versions, added[..i])
        invariant FreshVersions(versions, added[..i])
      {
        var v := added[i];
        StageRows(versions, added, i);
        StageStep(versions, added, i);
        if v.id in rows {
          return None;
        }
        rows := rows[v.id := VersionRow(v.recordId, v.body, v.createdAt)];
      }
      assert added[..|added|] == added;
      staged := Some(rows);
    }

    /** Creates the record, then each version, then the edge; nothing stays if any of them fails. */
    method WriteRecordAtomic(row: PersistedRow) returns (r: Result<(), DbError>)
      modifies this
      ensures (r, Db()) == WriteResult(old(Db()), row)
    {
      var who := ParseThing(row.attribution.creator);
      if who.Err? {
        return Err(who.error);
      }
      if row.record.id in records {
        return Err(Surreal);
      }
      var staged := StageVersions(row.versions);
      if staged.None? {
        return Err(Surreal);
      }
      records := records[row.record.id := RecordRowOf(row.record)];
      versions := staged.value;
      createdBy := createdBy + [CreatedBy(who.value, row.record.id, row.attribution.at)];
      r := Ok(());
    }

    method Save(record: Record, creator: string, now: Time) returns (r: Result<(), DbError>)
      modifies this
      ensures (r, Db()) == SaveResult(old(Db()), record, creator, now)
    {
      if record.state.Snapshot? {
        return Err(SaveSnapshotRequiresExplicitMethod);
      }
      var row := RecordToRow(record, creator, now);
      var existing := SelectRecord(record.id);
      if existing.Some? {
        return Err(AlreadyExists(record.id));
      }
      r := WriteRecordAtomic(row);
    }

    /** Stores a snapshot under ids of its own: the record id and every version id are minted anew. */
    method SaveSnapshot(snapshot: Record, creator: string, now: Time, newId: Uuid, mints: seq<Uuid>)
      returns (r: Result<Uuid, DbError>)
      requires snapshot.state.Snapshot? && |mints| == |snapshot.versions|
      modifies this
      ensures (r, Db()) == SnapshotResult(old(Db()), snapshot, creator, now, newId, mints)
    {
      var row := RecordToRow(snapshot, creator, now);
      ghost var plain := row;
      row := row.(record := row.record.(id := newId));
      for i := 0 to |mints|
        invariant row.record == plain.record.(id := newId) && row.attribution == plain.attribution
        invariant |row.versions| == |mints|
        invariant forall k | 0 <= k < i :: row.versions[k] == plain.versions[k].(id := mints[k], recordId := newId)
        invariant forall k | i <= k < |mints| :: row.versions[k] == plain.versions[k]
      {
        var v := row.versions[i];
        row := row.(versions := row.versions[i := v.(id := mints[i], recordId := newId)]);
      }
      assert row == Reminted(plain, newId, mints);
      var written := WriteRecordAtomic(row);
      match written {
        case Err(e) => r := Err(e);
        case Ok(_) =>
          snapshotOf := snapshotOf + [SnapshotEdge(newId, snapshot.id, row.attribution.at)];
          r := Ok(newId);
      }
    }

    method AddVersion(recordId: Uuid, body: Body, versionId: Uuid, now: Time) returns (r: Result<Version, DbError>)
      modifies this
      ensures match AppendTx(old(Db()), versionId, VersionRow(recordId, body, now))
              case Some(u) => r == Ok(Version(versionId, body)) && Db() == u
              case None => r == Err(Surreal) && Db() == old(Db())
    {
      if versionId in versions {
        return Err(Surreal);
      }
      versions := versions[versionId := VersionRow(recordId, body, now)];
      if recordId in records {
        records := records[recordId := records[recordId].(updatedAt := now)];
      }
      r := Ok(Version(versionId, body));
    }

    method TransitionToFixed(id: Uuid, h: Digest, now: Time) returns (r: Result<Record, DbError>)
      modifies this
      ensures (r, Db()) == TransitionResult(old(Db()), id, h, now)
    {
      var current := Assemble(id);
      if current.Err? {
        return Err(current.error);
      }
      if current.value.None? {
        return Err(EmptyVersionChain(id));
      }
      var record := current.value.value.record;
      if record.state.Fixed? {
        return Err(StateMismatch);
      }
      var newVersions := record.versions;
      if |newVersions| == 0 {
        return Err(EmptyVersionChain(id));
      }
      var last := newVersions[|newVersions| - 1];
      if last.body.BlobRef? {
        last := last.(body := BlobRef("/fixed/" + HexOf(h), last.body.size));
        newVersions := newVersions[|newVersions| - 1 := last];
      }
      assert newVersions == HardenedLast(record.versions, h);
      if id in records {
        records := records[id := records[id].(state := "fixed", contentHash := Some(HexOf(h)), updatedAt := now)];
      }
      if last.id in versions {
        versions := versions[last.id := versions[last.id].(body := last.body)];
      }
      r := Ok(Record(Fixed, id, record.kind, Some(h), newVersions));
    }

    method Delete(id: Uuid) returns (removed: bool)
      modifies this
      ensures (removed, Db()) == DeleteResult(old(Db()), id)
    {
      var existing := SelectRecord(id);
      if existing.None? {
        return false;
      }
      createdBy := WithoutCreatedBy(createdBy, id);
      snapshotOf := WithoutSnapshotEdges(snapshotOf, id);
      versions := versions - IdsOf(versions, id);
      records := records - {id};
      removed := true;
    }

    /** Every record of one creator: the edges first, then one read after the other. */
    method ListByCreator(creator: string) returns (r: Result<seq<Loaded>, DbError>)
      ensures r == ListResult(Db(), creator)
    {
      var who := ParseThing(creator);
      if who.Err? {
        return Err(who.error);
      }
      var edges := Sorted(EdgesBy(createdBy, who.value));
      var out := [];
      for i := 0 to |edges|
        invariant Collect(Finds(Db(), edges)[..i]) == Ok(out)
      {
        assert Finds(Db(), edges)[..i + 1][..i] == Finds(Db(), edges)[..i];
        var found := Assemble(edges[i].record);
        match found {
          case Err(e) =>
            CollectFails(Finds(Db(), edges), i + 1);
            return Err(e);
          case Ok(None) =>
          case Ok(Some(l)) => out := out + [l];
        }
      }
      assert Finds(Db(), edges)[..|edges|] == Finds(Db(), edges);
      r := Ok(out);
    }
  }
}
