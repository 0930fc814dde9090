/** Reading one record back from the tables, and the invariant that makes
    every such read succeed. */
module Load {
  import opened Basics
  import opened Digests
  import opened Core
  import opened Things
  import opened Convert
  import opened Tables

  /** A record with the attribution read beside it. */
  datatype Loaded = Loaded(record: Record, attribution: Attribution)

  function AttributionOf(e: CreatedBy): Attribution {
    Attribution(Literal(e.creator), e.at)
  }

  /** Puts the three reads of one record together. */
  function Join(row: PersistedRecord, versions: seq<PersistedVersion>, edge: Option<CreatedBy>): Result<Loaded, DbError> {
    if edge.None? then Err(NoAttribution(row.id))
    else
      match RowToAny(PersistedRow(row, versions, AttributionOf(edge.value)))
      case Err(e) => Err(e)
      case Ok(r) => Ok(Loaded(r, AttributionOf(edge.value)))
  }

  /** What `find` answers when nothing else runs: no row, an error, or the record. */
  function Find(t: Tables, id: Uuid): Result<Option<Loaded>, DbError> {
    if id !in t.records then Ok(None)
    else
      match IntoPersisted(t.records[id], id)
      case Err(e) => Err(e)
      case Ok(row) =>
        match Join(row, Chain(t.versions, id), EdgeOf(t.createdBy, id))
        case Err(e) => Err(e)
        case Ok(l) => Ok(Some(l))
  }

  // ---- The structural invariant ----

  /** A record row whose state is known and whose digest column fits it. */
  predicate RowFits(row: RecordRow) {
    FromLiteral(row.state).Ok? && HashFits(FromLiteral(row.state).value, row.contentHash)
  }

  ghost predicate HasVersion(t: Tables, id: Uuid) {
    exists k :: k in t.versions && t.versions[k].recordId == id
  }

  ghost predicate Distinct(edges: seq<CreatedBy>) {
    forall i, j | 0 <= i < j < |edges| :: edges[i].record != edges[j].record
  }

  /** The edges point at exactly the records `ids`, each once. */
  ghost predicate OneEdgeEach(edges: seq<CreatedBy>, ids: set<Uuid>) {
    && Distinct(edges)
    && (forall e | e in edges :: e.record in ids)
    && (forall id | id in ids :: EdgeOf(edges, id).Some?)
  }

  /** Every record row fits and has a version; no version is left without its record. */
  ghost predicate Complete(t: Tables) {
    && (forall id | id in t.records :: RowFits(t.records[id]))
    && (forall id | id in t.records :: HasVersion(t, id))
    && (forall k | k in t.versions :: t.versions[k].recordId in t.records)
  }

  /** Every record row fits, has a version and exactly one attribution edge;
      no version and no edge is left without its record. */
  ghost predicate WellFormed(t: Tables) {
    Complete(t) && OneEdgeEach(t.createdBy, t.records.Keys)
  }

  /** In well-formed tables every record there is loads, and as a proper record. */
  lemma FindSucceeds(t: Tables, id: Uuid)
    requires WellFormed(t)
    ensures Find(t, id).Ok?
    ensures Find(t, id).value.Some? <==> id in t.records
    ensures id in t.records ==> Proper(Find(t, id).value.value.record) && Find(t, id).value.value.record.id == id
  {
    if id in t.records {
      ChainNonEmpty(t.versions, id);
    }
  }

  /** Two table states that hold the same rows for `id`, timestamps of the record row aside. */
  ghost predicate SameFor(t: Tables, u: Tables, id: Uuid) {
    && (id in t.records <==> id in u.records)
    && (id in t.records ==> t.records[id].(updatedAt := 0) == u.records[id].(updatedAt := 0))
    && (forall k | k in t.versions && t.versions[k].recordId == id :: k in u.versions && u.versions[k] == t.versions[k])
    && (forall k | k in u.versions && u.versions[k].recordId == id :: k in t.versions && t.versions[k] == u.versions[k])
    && EdgeOf(t.createdBy, id) == EdgeOf(u.createdBy, id)
  }

  /** A record is found the same wherever its own rows are the same. */
  lemma FindSame(t: Tables, u: Tables, id: Uuid)
    requires SameFor(t, u, id)
    ensures Find(t, id) == Find(u, id)
  {
    ChainSame(t.versions, u.versions, id);
  }

  // ---- What a find has read ----

  /** The version that reads as the last one of record `id`. */
  function Tail(t: Tables, id: Uuid): PersistedVersion {
    var c := Chain(t.versions, id);
    if c == [] then PersistedVersion(0, id, Inline([]), 0) else c[|c| - 1]
  }

  /** The version read last belongs to the record, and is a row there. */
  lemma TailIsRow(t: Tables, id: Uuid)
    requires HasVersion(t, id)
    ensures Tail(t, id).id in t.versions
    ensures Tail(t, id) == PersistedOf(Tail(t, id).id, t.versions[Tail(t, id).id])
    ensures Tail(t, id).recordId == id
  {
    ChainNonEmpty(t.versions, id);
    ChainContents(t.versions, id);
  }

  /** What a successful find says about the rows it read. */
  lemma FoundRows(t: Tables, id: Uuid)
    requires Find(t, id).Ok? && Find(t, id).value.Some?
    ensures var r := Find(t, id).value.value.record;
            && id in t.records
            && r.versions == VersionsFromPersisted(Chain(t.versions, id)) && r.versions != []
            && r.versions[|r.versions| - 1].body == Tail(t, id).body
            && t.records[id].state == AsLiteral(r.state)
            && (r.state.Fixed? ==> t.records[id].contentHash.Some? && r.hash.Some?
                                   && ParseHex(t.records[id].contentHash.value) == Ok(r.hash.value))
  {
    StateLiteralRoundTrip(FromLiteral(t.records[id].state).value, t.records[id].state);
  }

  /** Every other version of a record comes before the one read last. */
  lemma TailIsLast(t: Tables, id: Uuid, j: Uuid)
    requires j in t.versions && t.versions[j].recordId == id
    ensures HasVersion(t, id) && Tail(t, id).id in t.versions
    ensures j == Tail(t, id).id || Before(t.versions, j, Tail(t, id).id)
  {
    var c := Chain(t.versions, id);
    TailIsRow(t, id);
    ChainContents(t.versions, id);
    var i :| 0 <= i < |c| && c[i] == PersistedOf(j, t.versions[j]);
  }

  /** The version of a record that every other one comes before is the one read last. */
  lemma TailIs(t: Tables, id: Uuid, k: Uuid)
    requires k in t.versions && t.versions[k].recordId == id
    requires forall j | j in t.versions && t.versions[j].recordId == id :: j == k || Before(t.versions, j, k)
    ensures Tail(t, id) == PersistedOf(k, t.versions[k])
  {
    TailIsLast(t, id, k);
    TailIsRow(t, id);
  }

  /** The version read last after an append: the new one exactly when it comes after all others. */
  lemma TailAfterAppend(t: Tables, vid: Uuid, row: VersionRow)
    requires AppendTx(t, vid, row).Some? && HasVersion(t, row.recordId)
    ensures Tail(AppendTx(t, vid, row).value, row.recordId) ==
            if ComesLast(t.versions, vid, row) then PersistedOf(vid, row) else Tail(t, row.recordId)
  {
    var u, id := AppendTx(t, vid, row).value, row.recordId;
    if ComesLast(t.versions, vid, row) {
      TailIs(u, id, vid);
    } else {
      TailIsRow(t, id);
      var last := Tail(t, id).id;
      var k :| k in t.versions && t.versions[k].recordId == id && !Before(u.versions, k, vid);
      TailIsLast(t, id, k);
      assert k == last || Before(u.versions, k, last);
      assert k != vid && !Before(u.versions, k, vid);
      assert Before(u.versions, vid, k);
      forall j | j in u.versions && u.versions[j].recordId == id
        ensures j == last || Before(u.versions, j, last)
      {
        if j != vid {
          TailIsLast(t, id, j);
        }
      }
      TailIs(u, id, last);
    }
  }

  /** The version read last after a fix: the same one, with the body written if it was written to. */
  lemma TailAfterFix(t: Tables, rid: Uuid, hash: string, now: Time, vid: Uuid, body: Body, id: Uuid)
    requires HasVersion(t, id)
    ensures Tail(FixTx(t, rid, hash, now, vid, body), id) ==
            if Tail(t, id).id == vid then Tail(t, id).(body := body) else Tail(t, id)
  {
    var u, last := FixTx(t, rid, hash, now, vid, body), Tail(t, id).id;
    TailIsRow(t, id);
    forall j | j in u.versions && u.versions[j].recordId == id
      ensures j == last || Before(u.versions, j, last)
    {
      TailIsLast(t, id, j);
    }
    TailIs(u, id, last);
  }

  // ---- Edges under change ----

  lemma {:induction false} EdgeOfAppend(edges: seq<CreatedBy>, e: CreatedBy, id: Uuid)
    ensures EdgeOf(edges + [e], id) ==
            if EdgeOf(edges, id).Some? then EdgeOf(edges, id) else if e.record == id then Some(e) else None
  {
    if edges == [] {
      assert (edges + [e])[1..] == [];
    } else {
      assert (edges + [e])[1..] == edges[1..] + [e];
      EdgeOfAppend(edges[1..], e, id);
    }
  }

  lemma {:induction false} EdgeOfWithout(edges: seq<CreatedBy>, gone: Uuid, id: Uuid)
    requires id != gone
    ensures EdgeOf(WithoutCreatedBy(edges, gone), id) == EdgeOf(edges, id)
  {
    if edges != [] {
      EdgeOfWithout(edges[1..], gone, id);
      if edges[0].record != gone {
        assert WithoutCreatedBy(edges, gone)[1..] == WithoutCreatedBy(edges[1..], gone);
      }
    }
  }

  lemma {:induction false} WithoutStaysDistinct(edges: seq<CreatedBy>, gone: Uuid)
    requires Distinct(edges)
    ensures Distinct(WithoutCreatedBy(edges, gone))
  {
    if edges != [] {
      var rest := WithoutCreatedBy(edges[1..], gone);
      WithoutStaysDistinct(edges[1..], gone);
      if edges[0].record != gone {
        var r := [edges[0]] + rest;
        forall i, j | 0 <= i < j < |r|
          ensures r[i].record != r[j].record
        {
          assert rest[j - 1] in edges[1..];
          if i > 0 {
            assert rest[i - 1].record != rest[j - 1].record;
          }
        }
      }
    }
  }

  // ---- Each transaction frames the other records ----

  lemma CreateFrames(t: Tables, row: PersistedRow, creator: Thing, id: Uuid)
    requires CreateTx(t, row, creator).Some?
    requires forall i | 0 <= i < |row.versions| :: row.versions[i].recordId == row.record.id
    requires id != row.record.id
    ensures SameFor(t, CreateTx(t, row, creator).value, id)
  {
    var u := CreateTx(t, row, creator).value;
    EdgeOfAppend(t.createdBy, CreatedBy(creator, row.record.id, row.attribution.at), id);
    forall k | k in u.versions && u.versions[k].recordId == id
      ensures k in t.versions && t.versions[k] == u.versions[k]
    {
      if i :| 0 <= i < |row.versions| && row.versions[i].id == k {
        WithVersionsAt(t.versions, row.versions, i);
      }
    }
  }

  lemma AppendFrames(t: Tables, vid: Uuid, row: VersionRow, id: Uuid)
    requires AppendTx(t, vid, row).Some?
    requires id != row.recordId
    ensures SameFor(t, AppendTx(t, vid, row).value, id)
  {
  }

  lemma FixFrames(t: Tables, rid: Uuid, hash: string, now: Time, vid: Uuid, body: Body, id: Uuid)
    requires vid in t.versions ==> t.versions[vid].recordId == rid
    requires id != rid
    ensures SameFor(t, FixTx(t, rid, hash, now, vid, body), id)
  {
  }

  lemma DeleteFrames(t: Tables, rid: Uuid, id: Uuid)
    requires id != rid
    ensures SameFor(t, DeleteTx(t, rid), id)
  {
    EdgeOfWithout(t.createdBy, rid, id);
  }

  /** A step that leaves every record but `rid` as it was. */
  ghost predicate FramesOthers(t: Tables, u: Tables, rid: Uuid) {
    forall id | id in t.records && id != rid :: SameFor(t, u, id)
  }

  lemma CreateFramesOthers(t: Tables, row: PersistedRow, creator: Thing)
    requires CreateTx(t, row, creator).Some?
    requires forall i | 0 <= i < |row.versions| :: row.versions[i].recordId == row.record.id
    ensures FramesOthers(t, CreateTx(t, row, creator).value, row.record.id)
  {
    forall id | id in t.records && id != row.record.id
      ensures SameFor(t, CreateTx(t, row, creator).value, id)
    {
      CreateFrames(t, row, creator, id);
    }
  }

  lemma AppendFramesOthers(t: Tables, vid: Uuid, row: VersionRow)
    requires AppendTx(t, vid, row).Some?
    ensures FramesOthers(t, AppendTx(t, vid, row).value, row.recordId)
  {
    forall id | id in t.records && id != row.recordId
      ensures SameFor(t, AppendTx(t, vid, row).value, id)
    {
      AppendFrames(t, vid, row, id);
    }
  }

  lemma FixFramesOthers(t: Tables, rid: Uuid, hash: string, now: Time, vid: Uuid, body: Body)
    requires vid in t.versions ==> t.versions[vid].recordId == rid
    ensures FramesOthers(t, FixTx(t, rid, hash, now, vid, body), rid)
  {
    forall id | id in t.records && id != rid
      ensures SameFor(t, FixTx(t, rid, hash, now, vid, body), id)
    {
      FixFrames(t, rid, hash, now, vid, body, id);
    }
  }

  // ---- Each transaction keeps the tables well-formed, or exactly when ----

  lemma VersionKept(t: Tables, u: Tables, id: Uuid)
    requires HasVersion(t, id)
    requires forall k | k in t.versions && t.versions[k].recordId == id :: k in u.versions && u.versions[k].recordId == id
    ensures HasVersion(u, id)
  {
    var k :| k in t.versions && t.versions[k].recordId == id;
    assert k in u.versions && u.versions[k].recordId == id;
  }

  lemma CreateKeepsEdges(t: Tables, row: PersistedRow, creator: Thing)
    requires WellFormed(t)
    requires CreateTx(t, row, creator).Some?
    ensures var u := CreateTx(t, row, creator).value; OneEdgeEach(u.createdBy, u.records.Keys)
  {
    var u, rid := CreateTx(t, row, creator).value, row.record.id;
    assert forall i | 0 <= i < |t.createdBy| :: t.createdBy[i] in t.createdBy;
    forall id | id in u.records
      ensures EdgeOf(u.createdBy, id).Some?
    {
      EdgeOfAppend(t.createdBy, CreatedBy(creator, rid, row.attribution.at), id);
    }
  }

  lemma CreateKeepsOwners(t: Tables, row: PersistedRow, creator: Thing)
    requires CreateTx(t, row, creator).Some?
    requires forall k | k in t.versions :: t.versions[k].recordId in t.records
    requires forall i | 0 <= i < |row.versions| :: row.versions[i].recordId == row.record.id
    ensures var u := CreateTx(t, row, creator).value; forall k | k in u.versions :: u.versions[k].recordId in u.records
  {
    var u := CreateTx(t, row, creator).value;
    forall k | k in u.versions
      ensures u.versions[k].recordId in u.records
    {
      if i :| 0 <= i < |row.versions| && row.versions[i].id == k {
        WithVersionsAt(t.versions, row.versions, i);
      }
    }
  }

  lemma CreateCompletes(t: Tables, row: PersistedRow, creator: Thing)
    requires Complete(t)
    requires CreateTx(t, row, creator).Some?
    requires forall i | 0 <= i < |row.versions| :: row.versions[i].recordId == row.record.id
    requires row.versions != [] && HashFits(row.record.state, row.record.contentHash)
    ensures Complete(CreateTx(t, row, creator).value)
  {
    var u, rid := CreateTx(t, row, creator).value, row.record.id;
    StateLiteralRoundTrip(row.record.state, AsLiteral(row.record.state));
    WithVersionsAt(t.versions, row.versions, 0);
    assert row.versions[0].id in u.versions && u.versions[row.versions[0].id].recordId == rid;
    forall id | id in t.records
      ensures HasVersion(u, id)
    {
      VersionKept(t, u, id);
    }
    CreateKeepsOwners(t, row, creator);
  }

  /** A create keeps the tables well-formed exactly when the row brings a version and a digest column that fits. */
  lemma CreateKeepsWellFormed(t: Tables, row: PersistedRow, creator: Thing)
    requires WellFormed(t)
    requires CreateTx(t, row, creator).Some?
    requires forall i | 0 <= i < |row.versions| :: row.versions[i].recordId == row.record.id
    ensures WellFormed(CreateTx(t, row, creator).value) <==>
            row.versions != [] && HashFits(row.record.state, row.record.contentHash)
  {
    var u, rid := CreateTx(t, row, creator).value, row.record.id;
    CreateKeepsEdges(t, row, creator);
    StateLiteralRoundTrip(row.record.state, AsLiteral(row.record.state));
    if row.versions == [] {
      assert !HasVersion(u, rid);
    } else if HashFits(row.record.state, row.record.contentHash) {
      CreateCompletes(t, row, creator);
    } else {
      assert !RowFits(u.records[rid]);
    }
  }

  lemma AppendCompletesIff(t: Tables, vid: Uuid, row: VersionRow)
    requires Complete(t)
    requires AppendTx(t, vid, row).Some?
    ensures Complete(AppendTx(t, vid, row).value) <==> row.recordId in t.records
  {
    var u := AppendTx(t, vid, row).value;
    assert vid in u.versions && u.versions[vid] == row;
    forall id | id in t.records
      ensures HasVersion(u, id)
    {
      VersionKept(t, u, id);
    }
  }

  /** Appending keeps the tables well-formed exactly when the record is there:
      an append to a missing record leaves an orphan version. */
  lemma AppendKeepsWellFormed(t: Tables, vid: Uuid, row: VersionRow)
    requires WellFormed(t)
    requires AppendTx(t, vid, row).Some?
    ensures WellFormed(AppendTx(t, vid, row).value) <==> row.recordId in t.records
  {
    AppendCompletesIff(t, vid, row);
    assert AppendTx(t, vid, row).value.records.Keys == t.records.Keys;
  }

  /** Any append to empty tables leaves such an orphan. */
  lemma OrphanLeft(vid: Uuid, row: VersionRow)
    ensures var t := Tables(map[], map[], [], []);
            WellFormed(t) && AppendTx(t, vid, row).Some? && !WellFormed(AppendTx(t, vid, row).value)
  {
    EmptyWellFormed();
    AppendKeepsWellFormed(Tables(map[], map[], [], []), vid, row);
  }

  lemma FixCompletes(t: Tables, rid: Uuid, h: Digest, now: Time, vid: Uuid, body: Body)
    requires Complete(t)
    ensures Complete(FixTx(t, rid, HexOf(h), now, vid, body))
  {
    var u := FixTx(t, rid, HexOf(h), now, vid, body);
    ParseOfDisplay(h);
    StateLiteralRoundTrip(Fixed, "fixed");
    forall id | id in t.records
      ensures HasVersion(u, id)
    {
      VersionKept(t, u, id);
    }
  }

  lemma FixKeepsWellFormed(t: Tables, rid: Uuid, h: Digest, now: Time, vid: Uuid, body: Body)
    requires WellFormed(t)
    ensures WellFormed(FixTx(t, rid, HexOf(h), now, vid, body))
  {
    FixCompletes(t, rid, h, now, vid, body);
    assert FixTx(t, rid, HexOf(h), now, vid, body).records.Keys == t.records.Keys;
  }

  lemma DeleteKeepsEdges(t: Tables, rid: Uuid)
    requires OneEdgeEach(t.createdBy, t.records.Keys)
    ensures OneEdgeEach(WithoutCreatedBy(t.createdBy, rid), t.records.Keys - {rid})
  {
    WithoutStaysDistinct(t.createdBy, rid);
    forall id | id in t.records && id != rid
      ensures EdgeOf(WithoutCreatedBy(t.createdBy, rid), id).Some?
    {
      EdgeOfWithout(t.createdBy, rid, id);
    }
  }

  lemma DeleteCompletes(t: Tables, rid: Uuid)
    requires Complete(t)
    ensures Complete(DeleteTx(t, rid))
  {
    var u := DeleteTx(t, rid);
    forall id | id in u.records
      ensures RowFits(u.records[id]) && HasVersion(u, id)
    {
      assert id in t.records && id != rid;
      VersionKept(t, u, id);
    }
    forall k | k in u.versions
      ensures u.versions[k].recordId in u.records
    {
      assert k in t.versions && k !in IdsOf(t.versions, rid);
    }
  }

  lemma DeleteKeepsWellFormed(t: Tables, rid: Uuid)
    requires WellFormed(t)
    ensures WellFormed(DeleteTx(t, rid))
  {
    DeleteCompletes(t, rid);
    DeleteKeepsEdges(t, rid);
    assert DeleteTx(t, rid).records.Keys == t.records.Keys - {rid};
  }

  lemma EmptyWellFormed()
    ensures WellFormed(Tables(map[], map[], [], []))
  {
  }
}
