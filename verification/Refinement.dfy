/** The tables as a map from ids to records: what each repository operation
    does to that map is what the record operation of the same name does. */
module Refinement {
  import opened Basics
  import opened Digests
  import opened Core
  import opened Things
  import opened Convert
  import opened Tables
  import opened Load

  type Store = map<Uuid, Loaded>

  /** The records the tables stand for: those a find returns. */
  ghost function Abs(t: Tables): Store {
    map id | id in t.records && Find(t, id).Ok? && Find(t, id).value.Some? :: Find(t, id).value.value
  }

  /** In well-formed tables every record row is a record of the store, each a proper one under its own id. */
  lemma AbsHoldsAll(t: Tables, id: Uuid)
    requires WellFormed(t)
    ensures id in Abs(t) <==> id in t.records
    ensures id in Abs(t) ==> Find(t, id) == Ok(Some(Abs(t)[id])) && Proper(Abs(t)[id].record) && Abs(t)[id].record.id == id
  {
    FindSucceeds(t, id);
  }

  lemma StoreAt(t: Tables, id: Uuid)
    ensures id in Abs(t) <==> Find(t, id).Ok? && Find(t, id).value.Some?
    ensures id in Abs(t) ==> Abs(t)[id] == Find(t, id).value.value
  {
  }

  /** Two table states differ as stores at `id` only, where the second has `l`. */
  lemma StoreUpdated(t: Tables, u: Tables, id: Uuid, l: Loaded)
    requires forall other | other != id :: Find(u, other) == Find(t, other)
    requires Find(u, id) == Ok(Some(l))
    ensures Abs(u) == Abs(t)[id := l]
  {
    var m, n := Abs(t)[id := l], Abs(u);
    forall k
      ensures k in n <==> k in m
      ensures k in m ==> n[k] == m[k]
    {
      StoreAt(t, k);
      StoreAt(u, k);
    }
  }

  // ---- save ----

  /** Version ids go up along the chain, as ids minted one after the other do. */
  ghost predicate Ascending(vs: seq<Version>) {
    forall i, j | 0 <= i < j < |vs| :: vs[i].id < vs[j].id
  }

  /** The outcome of a save and the tables after it. */
  function SaveResult(t: Tables, r: Record, creator: string, now: Time): (Result<(), DbError>, Tables) {
    if r.state.Snapshot? then (Err(SaveSnapshotRequiresExplicitMethod), t)
    else if r.id in t.records then (Err(AlreadyExists(r.id)), t)
    else WriteResult(t, RecordToRow(r, creator, now))
  }

  /** The outcome of writing one row with its versions and attribution. */
  function WriteResult(t: Tables, row: PersistedRow): (Result<(), DbError>, Tables) {
    match ParseThing(row.attribution.creator)
    case Err(e) => (Err(e), t)
    case Ok(who) =>
      match CreateTx(t, row, who)
      case None => (Err(Surreal), t)
      case Some(u) => (Ok(()), u)
  }

  lemma CreatedRows(t: Tables, row: PersistedRow, who: Thing, q: seq<Uuid>)
    requires CreateTx(t, row, who).Some?
    requires |q| == |row.versions| && forall i | 0 <= i < |q| :: q[i] == row.versions[i].id
    ensures var vs := CreateTx(t, row, who).value.versions;
            forall i | 0 <= i < |q| :: q[i] in vs && vs[q[i]] == VersionRowOf(row.versions[i])
  {
    forall i | 0 <= i < |q|
      ensures q[i] in CreateTx(t, row, who).value.versions
      ensures CreateTx(t, row, who).value.versions[q[i]] == VersionRowOf(row.versions[i])
    {
      WithVersionsAt(t.versions, row.versions, i);
    }
  }

  lemma CreatedInIdOrder(t: Tables, row: PersistedRow, who: Thing)
    requires CreateTx(t, row, who).Some?
    requires forall k | k in t.versions :: t.versions[k].recordId in t.records
    requires forall i | 0 <= i < |row.versions| ::
               row.versions[i].recordId == row.record.id && row.versions[i].createdAt == row.versions[0].createdAt
    requires forall i, j | 0 <= i < j < |row.versions| :: row.versions[i].id < row.versions[j].id
    ensures Chain(CreateTx(t, row, who).value.versions, row.record.id) == row.versions
  {
    var added := row.versions;
    var q := seq(|added|, i requires 0 <= i < |added| => added[i].id);
    CreatedRows(t, row, who, q);
    CreatedIds(t, row, who);
    CreatedInOrder(CreateTx(t, row, who).value.versions, row.record.id, added, q);
  }

  /** The chain read for a record just created holds its versions; in their order exactly when their ids go up. */
  lemma CreatedChain(t: Tables, row: PersistedRow, who: Thing)
    requires CreateTx(t, row, who).Some?
    requires forall k | k in t.versions :: t.versions[k].recordId in t.records
    requires forall i | 0 <= i < |row.versions| ::
               row.versions[i].recordId == row.record.id && row.versions[i].createdAt == row.versions[0].createdAt
    ensures Chain(CreateTx(t, row, who).value.versions, row.record.id) == row.versions <==>
            forall i, j | 0 <= i < j < |row.versions| :: row.versions[i].id < row.versions[j].id
  {
    var vs := CreateTx(t, row, who).value.versions;
    if Chain(vs, row.record.id) == row.versions {
      ReadInOrder(vs, row.record.id, row.versions);
    } else if forall i, j | 0 <= i < j < |row.versions| :: row.versions[i].id < row.versions[j].id {
      CreatedInIdOrder(t, row, who);
    }
  }

  lemma ReadInOrder(vs: VersionTable, id: Uuid, added: seq<PersistedVersion>)
    requires Chain(vs, id) == added
    requires forall i | 0 <= i < |added| :: added[i].createdAt == added[0].createdAt
    ensures forall i, j | 0 <= i < j < |added| :: added[i].id < added[j].id
  {
    ChainContents(vs, id);
    forall i, j | 0 <= i < j < |added|
      ensures added[i].id < added[j].id
    {
      assert Before(vs, added[i].id, added[j].id);
      assert vs[added[i].id].createdAt == added[i].createdAt && vs[added[j].id].createdAt == added[j].createdAt;
    }
  }

  lemma CreatedInOrder(vs: VersionTable, id: Uuid, added: seq<PersistedVersion>, q: seq<Uuid>)
    requires |q| == |added| && forall i | 0 <= i < |added| ::
               q[i] == added[i].id && q[i] in vs && vs[q[i]] == VersionRowOf(added[i]) && added[i].createdAt == added[0].createdAt
    requires forall k :: k in IdsOf(vs, id) <==> exists i | 0 <= i < |added| :: added[i].id == k
    requires forall i, j | 0 <= i < j < |added| :: added[i].id < added[j].id
    ensures Chain(vs, id) == added
  {
    forall k
      ensures k in q <==> k in IdsOf(vs, id)
    {
      if k in q {
        var i :| 0 <= i < |q| && q[i] == k;
        assert added[i].id == k;
      }
      if k in IdsOf(vs, id) {
        var i :| 0 <= i < |added| && added[i].id == k;
        assert q[i] == k;
      }
    }
    assert Ordered(vs, q);
    OrderUnique(vs, IdsOf(vs, id), q);
  }

  lemma CreatedIds(t: Tables, row: PersistedRow, who: Thing)
    requires CreateTx(t, row, who).Some?
    requires forall k | k in t.versions :: t.versions[k].recordId in t.records
    requires forall i | 0 <= i < |row.versions| :: row.versions[i].recordId == row.record.id
    ensures forall k :: k in IdsOf(CreateTx(t, row, who).value.versions, row.record.id) <==>
              exists i | 0 <= i < |row.versions| :: row.versions[i].id == k
  {
    var vs := CreateTx(t, row, who).value.versions;
    forall i | 0 <= i < |row.versions|
      ensures row.versions[i].id in vs && vs[row.versions[i].id].recordId == row.record.id
    {
      WithVersionsAt(t.versions, row.versions, i);
    }
  }

  /** What a record just created is found as. */
  lemma CreatedFind(t: Tables, row: PersistedRow, who: Thing)
    requires WellFormed(t) && CreateTx(t, row, who).Some?
    ensures var u := CreateTx(t, row, who).value;
            EdgeOf(u.createdBy, row.record.id) == Some(CreatedBy(who, row.record.id, row.attribution.at))
            && IntoPersisted(u.records[row.record.id], row.record.id) == Ok(row.record)
  {
    EdgeOfAppend(t.createdBy, CreatedBy(who, row.record.id, row.attribution.at), row.record.id);
    assert EdgeOf(t.createdBy, row.record.id).None?;
    StateLiteralRoundTrip(row.record.state, AsLiteral(row.record.state));
  }

  /** The row a record is stored as is well-shaped. */
  lemma RowShape(r: Record, creator: string, now: Time)
    requires Proper(r)
    ensures var row := RecordToRow(r, creator, now);
            && row.versions != [] && HashFits(row.record.state, row.record.contentHash)
            && forall i | 0 <= i < |row.versions| ::
                 row.versions[i].recordId == r.id && row.versions[i].createdAt == now && row.versions[i].id == r.versions[i].id
  {
    if r.hash.Some? {
      ParseOfDisplay(r.hash.value);
    }
  }

  /** A saved record is found again exactly as it was, with its creator,
      precisely when its version ids go up, its kind is not a custom kind with
      a built-in name, and its creator has no backtick. */
  lemma SaveLoadsBackIff(t: Tables, r: Record, creator: string, now: Time)
    requires WellFormed(t) && Proper(r)
    requires SaveResult(t, r, creator, now).0.Ok?
    ensures Find(SaveResult(t, r, creator, now).1, r.id) == Ok(Some(Loaded(r, Attribution(creator, now)))) <==>
            Ascending(r.versions) && !Disguised(r.kind) && '`' !in creator
  {
    var row, who := RecordToRow(r, creator, now), ParseThing(creator).value;
    var u := CreateTx(t, row, who).value;
    RowShape(r, creator, now);
    CreatedFind(t, row, who);
    CreatedChain(t, row, who);
    CreatorRoundTrip(creator);
    KindRoundTrip(r.kind);
    if r.hash.Some? { ParseOfDisplay(r.hash.value); }
    JoinIff(t, r, creator, now, row, who);
  }

  lemma RowIsRead(t: Tables, row: PersistedRow, who: Thing)
    requires CreateTx(t, row, who).Some?
    ensures var u := CreateTx(t, row, who).value;
            VersionsFromPersisted(Chain(u.versions, row.record.id)) == VersionsFromPersisted(row.versions) <==>
            Chain(u.versions, row.record.id) == row.versions
  {
    var u := CreateTx(t, row, who).value;
    if VersionsFromPersisted(Chain(u.versions, row.record.id)) == VersionsFromPersisted(row.versions) {
      forall i | 0 <= i < |row.versions|
        ensures row.versions[i].id in u.versions && row.versions[i] == PersistedOf(row.versions[i].id, u.versions[row.versions[i].id])
      {
        WithVersionsAt(t.versions, row.versions, i);
      }
      ChainFromVersions(u.versions, row.record.id, row.versions);
    }
  }

  lemma JoinIff(t: Tables, r: Record, creator: string, now: Time, row: PersistedRow, who: Thing)
    requires Proper(r) && row == RecordToRow(r, creator, now) && CreateTx(t, row, who).Some?
    requires var u := CreateTx(t, row, who).value;
             && EdgeOf(u.createdBy, r.id) == Some(CreatedBy(who, r.id, now))
             && IntoPersisted(u.records[r.id], r.id) == Ok(row.record)
    requires r.hash.Some? ==> ParseHex(HexOf(r.hash.value)) == Ok(r.hash.value)
    ensures var u := CreateTx(t, row, who).value;
            Find(u, r.id) == Ok(Some(Loaded(r, Attribution(creator, now)))) <==>
            && Chain(u.versions, r.id) == row.versions
            && KindFromString(KindToString(r.kind)) == r.kind && Literal(who) == creator
  {
    RowIsRead(t, row, who);
    assert VersionsFromPersisted(row.versions) == r.versions;
  }

  /** A save that succeeds inserts one record under its id; a save that fails changes nothing.
      No save touches a record that was there. */
  lemma SaveInserts(t: Tables, r: Record, creator: string, now: Time)
    requires WellFormed(t) && Proper(r)
    ensures var (res, u) := SaveResult(t, r, creator, now);
            && WellFormed(u)
            && (res.Err? ==> u == t)
            && (res.Ok? ==> r.id !in Abs(t) && r.id in Abs(u) && Abs(u) == Abs(t)[r.id := Abs(u)[r.id]]
                            && forall k | k in t.versions :: k in u.versions && u.versions[k] == t.versions[k])
  {
    var (res, u) := SaveResult(t, r, creator, now);
    if res.Ok? {
      var row, who := RecordToRow(r, creator, now), ParseThing(creator).value;
      RowShape(r, creator, now);
      CreateKeepsWellFormed(t, row, who);
      AbsHoldsAll(u, r.id);
      AbsHoldsAll(t, r.id);
      forall other | other != r.id
        ensures Find(u, other) == Find(t, other)
      {
        CreateFrames(t, row, who, other);
        FindSame(t, u, other);
      }
      StoreUpdated(t, u, r.id, Abs(u)[r.id]);
    }
  }

  /** Saves of one id in any number and order: once one has succeeded every later one fails and changes nothing. */
  lemma SecondSaveLoses(t: Tables, r: Record, creator: string, now: Time, again: Record, rival: string, later: Time)
    requires SaveResult(t, r, creator, now).0.Ok? && again.id == r.id
    ensures var u := SaveResult(t, r, creator, now).1;
            SaveResult(u, again, rival, later).0.Err? && SaveResult(u, again, rival, later).1 == u
  {
  }

  // ---- add_version ----

  lemma LoadedVersionsSnoc(c: seq<PersistedVersion>, v: PersistedVersion)
    ensures VersionsFromPersisted(c + [v]) == VersionsFromPersisted(c) + [VersionFromPersisted(v)]
  {
  }

  /** Chains of one table that load alike are alike. */
  lemma ChainFromVersions(vs: VersionTable, id: Uuid, c: seq<PersistedVersion>)
    requires VersionsFromPersisted(Chain(vs, id)) == VersionsFromPersisted(c)
    requires forall i | 0 <= i < |c| :: c[i].id in vs && c[i] == PersistedOf(c[i].id, vs[c[i].id])
    ensures Chain(vs, id) == c
  {
    ChainContents(vs, id);
    forall i | 0 <= i < |c|
      ensures Chain(vs, id)[i] == c[i]
    {
      assert VersionsFromPersisted(Chain(vs, id))[i] == VersionsFromPersisted(c)[i];
    }
  }

  /** An append that comes last is the record's own update. */
  lemma AppendIsUpdate(t: Tables, vid: Uuid, row: VersionRow, l: Loaded)
    requires AppendTx(t, vid, row).Some? && ComesLast(t.versions, vid, row)
    requires Find(t, row.recordId) == Ok(Some(l)) && l.record.state.Mutable?
    ensures Abs(AppendTx(t, vid, row).value) ==
            Abs(t)[row.recordId := l.(record := Updated(l.record, Version(vid, row.body)))]
  {
    var u, id := AppendTx(t, vid, row).value, row.recordId;
    var wanted := l.(record := Updated(l.record, Version(vid, row.body)));
    ChainAppend(t.versions, vid, row);
    LoadedVersionsSnoc(Chain(t.versions, id), PersistedOf(vid, row));
    assert Find(u, id) == Ok(Some(wanted));
    forall other | other != id
      ensures Find(u, other) == Find(t, other)
    {
      AppendFrames(t, vid, row, other);
      FindSame(t, u, other);
    }
    StoreUpdated(t, u, id, wanted);
  }

  /** An append that acts as an update came last. */
  lemma UpdateComesLast(t: Tables, vid: Uuid, row: VersionRow, l: Loaded)
    requires AppendTx(t, vid, row).Some?
    requires Find(t, row.recordId) == Ok(Some(l))
    requires Find(AppendTx(t, vid, row).value, row.recordId) == Ok(Some(l.(record := Updated(l.record, Version(vid, row.body)))))
    ensures ComesLast(t.versions, vid, row)
  {
    AppendReadsLast(t, AppendTx(t, vid, row).value, vid, row, l);
    LastInChain(t.versions, vid, row);
  }

  /** Appending to a mutable record is the record's own update, exactly when the new row comes after every row of its chain. */
  lemma AppendIsUpdateIff(t: Tables, vid: Uuid, row: VersionRow, l: Loaded)
    requires AppendTx(t, vid, row).Some?
    requires Find(t, row.recordId) == Ok(Some(l)) && l.record.state.Mutable?
    ensures Abs(AppendTx(t, vid, row).value) ==
            Abs(t)[row.recordId := l.(record := Updated(l.record, Version(vid, row.body)))] <==>
            ComesLast(t.versions, vid, row)
  {
    if ComesLast(t.versions, vid, row) {
      AppendIsUpdate(t, vid, row, l);
    } else if Abs(AppendTx(t, vid, row).value) == Abs(t)[row.recordId := l.(record := Updated(l.record, Version(vid, row.body)))] {
      StoreAt(AppendTx(t, vid, row).value, row.recordId);
      UpdateComesLast(t, vid, row, l);
      assert false;
    }
  }

  lemma AppendReadsLast(t: Tables, u: Tables, vid: Uuid, row: VersionRow, l: Loaded)
    requires vid !in t.versions && u.versions == t.versions[vid := row]
    requires l.record.versions == VersionsFromPersisted(Chain(t.versions, row.recordId))
    requires VersionsFromPersisted(Chain(u.versions, row.recordId)) == l.record.versions + [Version(vid, row.body)]
    ensures Chain(u.versions, row.recordId) == Chain(t.versions, row.recordId) + [PersistedOf(vid, row)]
  {
    var c := Chain(t.versions, row.recordId);
    LoadedVersionsSnoc(c, PersistedOf(vid, row));
    ChainContents(t.versions, row.recordId);
    ChainFromVersions(u.versions, row.recordId, c + [PersistedOf(vid, row)]);
  }

  // ---- transition_to_fixed ----

  /** The outcome of the transition and the tables after it. */
  function TransitionResult(t: Tables, id: Uuid, h: Digest, now: Time): (Result<Record, DbError>, Tables) {
    match Find(t, id)
    case Err(e) => (Err(e), t)
    case Ok(None) => (Err(EmptyVersionChain(id)), t)
    case Ok(Some(l)) =>
      if l.record.state.Fixed? then (Err(StateMismatch), t)
      else if l.record.versions == [] then (Err(EmptyVersionChain(id)), t)
      else
        var vs := HardenedLast(l.record.versions, h);
        var last := vs[|vs| - 1];
        (Ok(Record(Fixed, id, l.record.kind, Some(h), vs)), FixTx(t, id, HexOf(h), now, last.id, last.body))
  }

  /** The last row of a chain is where a fix writes. */
  lemma LastRow(vs: VersionTable, id: Uuid)
    requires Chain(vs, id) != []
    ensures var last := Chain(vs, id)[|Chain(vs, id)| - 1];
            && last.id in vs && vs[last.id].recordId == id
            && forall i | 0 <= i < |Chain(vs, id)| - 1 :: Chain(vs, id)[i].id != last.id
  {
    ChainContents(vs, id);
    var c := Chain(vs, id);
    forall i | 0 <= i < |c| - 1
      ensures c[i].id != c[|c| - 1].id
    {
      assert Before(vs, c[i].id, c[|c| - 1].id);
    }
  }

  lemma HardenedChain(vs: VersionTable, id: Uuid, h: Digest)
    requires Chain(vs, id) != []
    ensures var c := Chain(vs, id);
            var last := c[|c| - 1];
            && last.id in vs && vs[last.id].recordId == id
            && VersionsFromPersisted(Chain(vs[last.id := vs[last.id].(body := Hardened(last.body, h))], id)) ==
               HardenedLast(VersionsFromPersisted(c), h)
  {
    var c := Chain(vs, id);
    var last := c[|c| - 1];
    LastRow(vs, id);
    ChainRewrite(vs, last.id, Hardened(last.body, h), id);
    HardenedVersions(c, Chain(vs[last.id := vs[last.id].(body := Hardened(last.body, h))], id), h);
  }

  lemma HardenedVersions(c: seq<PersistedVersion>, d: seq<PersistedVersion>, h: Digest)
    requires c != [] && |d| == |c|
    requires forall i | 0 <= i < |c| - 1 :: d[i] == c[i]
    requires d[|c| - 1] == c[|c| - 1].(body := Hardened(c[|c| - 1].body, h))
    ensures VersionsFromPersisted(d) == HardenedLast(VersionsFromPersisted(c), h)
  {
  }

  /** The transition is the record's own fix, seen by its caller and by every later find; everything else stays. */
  lemma TransitionIsFix(t: Tables, id: Uuid, h: Digest, now: Time, l: Loaded)
    requires WellFormed(t) && Find(t, id) == Ok(Some(l)) && !l.record.state.Fixed?
    ensures var (res, u) := TransitionResult(t, id, h, now);
            && WellFormed(u) && res == Ok(Fossil(l.record, h))
            && Abs(u) == Abs(t)[id := l.(record := Fossil(l.record, h))]
  {
    AbsHoldsAll(t, id);
    var (res, u) := TransitionResult(t, id, h, now);
    var last := HardenedLast(l.record.versions, h)[|l.record.versions| - 1];
    FixKeepsWellFormed(t, id, h, now, last.id, last.body);
    TransitionFound(t, id, h, now, l);
    TransitionFrames(t, id, h, now, l);
    StoreUpdated(t, u, id, l.(record := Fossil(l.record, h)));
  }

  lemma TransitionFound(t: Tables, id: Uuid, h: Digest, now: Time, l: Loaded)
    requires Find(t, id) == Ok(Some(l)) && !l.record.state.Fixed?
    ensures Find(TransitionResult(t, id, h, now).1, id) == Ok(Some(l.(record := Fossil(l.record, h))))
  {
    FoundRows(t, id);
    HardenedChain(t.versions, id, h);
    ParseOfDisplay(h);
    StateLiteralRoundTrip(Fixed, "fixed");
  }

  lemma TransitionFrames(t: Tables, id: Uuid, h: Digest, now: Time, l: Loaded)
    requires Find(t, id) == Ok(Some(l)) && !l.record.state.Fixed?
    ensures forall other | other != id :: Find(TransitionResult(t, id, h, now).1, other) == Find(t, other)
  {
    var u := TransitionResult(t, id, h, now).1;
    FoundRows(t, id);
    HardenedChain(t.versions, id, h);
    var last := HardenedLast(l.record.versions, h)[|l.record.versions| - 1];
    forall other | other != id
      ensures Find(u, other) == Find(t, other)
    {
      FixFrames(t, id, HexOf(h), now, last.id, last.body, other);
      FindSame(t, u, other);
    }
  }

  /** The version at `m` is the one with the greatest id. */
  predicate Latest(vs: seq<Version>, m: nat) {
    m < |vs| && forall i | 0 <= i < |vs| :: vs[i].id <= vs[m].id
  }

  /** Hardening the version with the greatest id is hardening the last one:
      they are the same, or neither body is changed by it. */
  ghost predicate HardensAlike(vs: seq<Version>, h: Digest) {
    exists m: nat :: Latest(vs, m) &&
      (m == |vs| - 1 || (Hardened(vs[m].body, h) == vs[m].body && Hardened(vs[|vs| - 1].body, h) == vs[|vs| - 1].body))
  }

  /** Of a record just written the version with the greatest id reads as the last. */
  lemma WrittenTail(t: Tables, r: Record, creator: string, now: Time, who: Thing) returns (m: nat)
    requires WellFormed(t) && Proper(r) && CreateTx(t, RecordToRow(r, creator, now), who).Some?
    ensures Latest(r.versions, m)
    ensures var u := CreateTx(t, RecordToRow(r, creator, now), who).value;
            Tail(u, r.id).id == r.versions[m].id && Tail(u, r.id).body == r.versions[m].body && Chain(u.versions, r.id) != []
  {
    var row := RecordToRow(r, creator, now);
    var vs := CreateTx(t, row, who).value.versions;
    var q := seq(|r.versions|, i requires 0 <= i < |r.versions| => r.versions[i].id);
    RowShape(r, creator, now);
    CreatedRows(t, row, who, q);
    CreatedIds(t, row, who);
    assert q[0] in vs && vs[q[0]].recordId == r.id;
    ChainNonEmpty(vs, r.id);
    m := LatestAt(vs, r, now, q);
  }

  lemma LatestAt(vs: VersionTable, r: Record, now: Time, q: seq<Uuid>) returns (m: nat)
    requires |q| == |r.versions| && forall i | 0 <= i < |q| ::
               q[i] == r.versions[i].id && q[i] in vs && vs[q[i]] == VersionRow(r.id, r.versions[i].body, now)
    requires forall k | k in vs && vs[k].recordId == r.id :: k in q
    requires Chain(vs, r.id) != []
    ensures Latest(r.versions, m)
    ensures var last := Chain(vs, r.id)[|Chain(vs, r.id)| - 1];
            last.id == r.versions[m].id && last.body == r.versions[m].body
  {
    var c := Chain(vs, r.id);
    var last := c[|c| - 1];
    ChainContents(vs, r.id);
    m :| 0 <= m < |q| && q[m] == last.id;
    forall i | 0 <= i < |q|
      ensures q[i] <= q[m]
    {
      var j :| 0 <= j < |c| && c[j] == PersistedOf(q[i], vs[q[i]]);
      if j < |c| - 1 {
        assert Before(vs, c[j].id, last.id);
      }
    }
  }

  /** The version rows of a fossil are those of its record with the last body hardened. */
  lemma FossilRows(t: Tables, r: Record, creator: string, now: Time, h: Digest)
    requires r.versions != [] && FreshVersions(t.versions, RecordToRow(r, creator, now).versions)
    ensures var a, b := RecordToRow(r, creator, now).versions, RecordToRow(Fossil(r, h), creator, now).versions;
            var last, vs := r.versions[|r.versions| - 1], WithVersions(t.versions, a);
            && FreshVersions(t.versions, b)
            && last.id in vs && vs[last.id].recordId == r.id && vs[last.id].body == last.body
            && WithVersions(t.versions, b) == vs[last.id := vs[last.id].(body := Hardened(last.body, h))]
  {
    var a, b := RecordToRow(r, creator, now).versions, RecordToRow(Fossil(r, h), creator, now).versions;
    assert |a| == |b| && a[..|a| - 1] == b[..|b| - 1];
    assert forall i | 0 <= i < |a| :: b[i].id == a[i].id;
  }

  /** Rewriting one row of a chain or another loads alike only if neither rewriting changes anything. */
  lemma RewrittenApart(vs: VersionTable, id: Uuid, a: Uuid, x: Body, b: Uuid, y: Body)
    requires a in vs && b in vs && a != b && vs[a].recordId == id && vs[b].recordId == id
    requires VersionsFromPersisted(Chain(vs[a := vs[a].(body := x)], id)) == VersionsFromPersisted(Chain(vs[b := vs[b].(body := y)], id))
    ensures x == vs[a].body && y == vs[b].body
  {
    var c, d, e := Chain(vs, id), Chain(vs[a := vs[a].(body := x)], id), Chain(vs[b := vs[b].(body := y)], id);
    ChainContents(vs, id);
    ChainRewrite(vs, a, x, id);
    ChainRewrite(vs, b, y, id);
    var i :| 0 <= i < |c| && c[i] == PersistedOf(a, vs[a]);
    var j :| 0 <= j < |c| && c[j] == PersistedOf(b, vs[b]);
    assert VersionsFromPersisted(d)[i] == VersionsFromPersisted(e)[i];
    assert VersionsFromPersisted(d)[j] == VersionsFromPersisted(e)[j];
  }

  /** Tables that differ from `u` in one body each, and agree on the rest of a
      record, are read alike exactly when they rewrote the same row or changed nothing. */
  lemma ReadAlike(u: Tables, f: Tables, w: Tables, id: Uuid, a: Uuid, x: Body, b: Uuid, y: Body)
    requires a in u.versions && u.versions[a].recordId == id && f.versions == u.versions[a := u.versions[a].(body := x)]
    requires b in u.versions && u.versions[b].recordId == id && w.versions == u.versions[b := u.versions[b].(body := y)]
    requires id in f.records && id in w.records && f.records[id].(updatedAt := 0) == w.records[id].(updatedAt := 0)
    requires EdgeOf(f.createdBy, id) == EdgeOf(w.createdBy, id)
    requires Find(f, id).Ok? && Find(f, id).value.Some? && (a == b ==> x == y)
    ensures Find(f, id) == Find(w, id) <==> a == b || (x == u.versions[a].body && y == u.versions[b].body)
  {
    if a == b || (x == u.versions[a].body && y == u.versions[b].body) {
      assert f.versions == w.versions;
      FindSame(f, w, id);
    } else if Find(f, id) == Find(w, id) {
      FoundRows(f, id);
      FoundRows(w, id);
      RewrittenApart(u.versions, id, a, x, b, y);
    }
  }

  /** Fixing a record just written rewrites the version with the greatest id. */
  lemma FixAfterWrite(t: Tables, r: Record, creator: string, now: Time, h: Digest, later: Time, who: Thing) returns (m: nat)
    requires WellFormed(t) && Proper(r) && !r.state.Fixed?
    requires CreateTx(t, RecordToRow(r, creator, now), who).Some?
    ensures Latest(r.versions, m)
    ensures var u := CreateTx(t, RecordToRow(r, creator, now), who).value;
            var last, f := r.versions[m], TransitionResult(u, r.id, h, later).1;
            && f == FixTx(u, r.id, HexOf(h), later, last.id, Hardened(last.body, h))
            && last.id in u.versions && u.versions[last.id].recordId == r.id && u.versions[last.id].body == last.body
            && Find(f, r.id).Ok? && Find(f, r.id).value.Some? && r.id in u.records
  {
    var row := RecordToRow(r, creator, now);
    var u := CreateTx(t, row, who).value;
    m := WrittenTail(t, r, creator, now, who);
    RowShape(r, creator, now);
    CreateKeepsWellFormed(t, row, who);
    FindSucceeds(u, r.id);
    FoundRows(u, r.id);
    LastRow(u.versions, r.id);
    TailIsRow(u, r.id);
    CreatedFind(t, row, who);
    StateLiteralRoundTrip(r.state, AsLiteral(r.state));
    TransitionFound(u, r.id, h, later, Find(u, r.id).value.value);
  }

  /** Version ids taken together are distinct, so one version has the greatest. */
  lemma OneLatest(t: Tables, r: Record, creator: string, now: Time, m: nat)
    requires FreshVersions(t.versions, RecordToRow(r, creator, now).versions) && Latest(r.versions, m)
    ensures forall i | 0 <= i < |r.versions| && r.versions[i].id == r.versions[m].id :: i == m
    ensures forall i: nat | Latest(r.versions, i) :: i == m
  {
    var vs := RecordToRow(r, creator, now).versions;
    forall i | 0 <= i < |r.versions| && r.versions[i].id == r.versions[m].id
      ensures i == m
    {
      assert vs[i].id == vs[m].id;
    }
    forall i: nat | Latest(r.versions, i)
      ensures i == m
    {
      assert r.versions[i].id <= r.versions[m].id <= r.versions[i].id;
    }
  }

  /** Writing a fossil where its record could be written: the same rows but for
      the state, the digest and the last body. */
  lemma FossilCreated(t: Tables, r: Record, creator: string, now: Time, h: Digest, who: Thing)
    requires r.versions != [] && r.hash.None? && CreateTx(t, RecordToRow(r, creator, now), who).Some?
    ensures CreateTx(t, RecordToRow(Fossil(r, h), creator, now), who).Some?
    ensures var u, w := CreateTx(t, RecordToRow(r, creator, now), who).value, CreateTx(t, RecordToRow(Fossil(r, h), creator, now), who).value;
            var last := r.versions[|r.versions| - 1];
            && last.id in u.versions && u.versions[last.id].recordId == r.id && u.versions[last.id].body == last.body
            && w.versions == u.versions[last.id := u.versions[last.id].(body := Hardened(last.body, h))]
            && r.id in u.records && r.id in w.records
            && w.records[r.id] == u.records[r.id].(state := "fixed", contentHash := Some(HexOf(h)))
            && w.createdBy == u.createdBy
  {
    FossilRows(t, r, creator, now, h);
  }

  /** Fixing the version at `m` in the tables `u`, against tables that have the last one hardened. */
  lemma FixedAlike(u: Tables, w: Tables, r: Record, m: nat, h: Digest, later: Time)
    requires r.versions != [] && Latest(r.versions, m)
    requires forall i: nat | Latest(r.versions, i) :: i == m
    requires forall i | 0 <= i < |r.versions| && r.versions[i].id == r.versions[m].id :: i == m
    requires var a, b := r.versions[m], r.versions[|r.versions| - 1];
             && a.id in u.versions && u.versions[a.id].recordId == r.id && u.versions[a.id].body == a.body
             && b.id in u.versions && u.versions[b.id].recordId == r.id && u.versions[b.id].body == b.body
             && w.versions == u.versions[b.id := u.versions[b.id].(body := Hardened(b.body, h))]
    requires r.id in u.records && r.id in w.records && w.createdBy == u.createdBy
    requires w.records[r.id] == u.records[r.id].(state := "fixed", contentHash := Some(HexOf(h)))
    requires var f := FixTx(u, r.id, HexOf(h), later, r.versions[m].id, Hardened(r.versions[m].body, h));
             Find(f, r.id).Ok? && Find(f, r.id).value.Some?
    ensures var f := FixTx(u, r.id, HexOf(h), later, r.versions[m].id, Hardened(r.versions[m].body, h));
            Find(f, r.id) == Find(w, r.id) <==> HardensAlike(r.versions, h)
  {
    var a, b := r.versions[m], r.versions[|r.versions| - 1];
    var f := FixTx(u, r.id, HexOf(h), later, a.id, Hardened(a.body, h));
    ReadAlike(u, f, w, r.id, a.id, Hardened(a.body, h), b.id, Hardened(b.body, h));
  }

  lemma FixCommutesWithCreate(t: Tables, r: Record, creator: string, now: Time, h: Digest, later: Time, who: Thing)
    requires WellFormed(t) && Proper(r) && !r.state.Fixed?
    requires CreateTx(t, RecordToRow(r, creator, now), who).Some?
    ensures CreateTx(t, RecordToRow(Fossil(r, h), creator, now), who).Some?
    ensures var f := TransitionResult(CreateTx(t, RecordToRow(r, creator, now), who).value, r.id, h, later).1;
            var w := CreateTx(t, RecordToRow(Fossil(r, h), creator, now), who).value;
            Find(f, r.id) == Find(w, r.id) <==> HardensAlike(r.versions, h)
  {
    var m := FixAfterWrite(t, r, creator, now, h, later, who);
    FossilCreated(t, r, creator, now, h, who);
    OneLatest(t, r, creator, now, m);
    var u, w := CreateTx(t, RecordToRow(r, creator, now), who).value, CreateTx(t, RecordToRow(Fossil(r, h), creator, now), who).value;
    FixedAlike(u, w, r, m, h, later);
  }

  /** Writing a record and fixing it in the tables is found as writing its fossil is,
      exactly when both harden the same version or change no body. */
  lemma FixCommutesWithWrite(t: Tables, r: Record, creator: string, now: Time, h: Digest, later: Time)
    requires WellFormed(t) && Proper(r) && !r.state.Fixed?
    requires WriteResult(t, RecordToRow(r, creator, now)).0.Ok?
    ensures WriteResult(t, RecordToRow(Fossil(r, h), creator, now)).0.Ok?
    ensures var f := TransitionResult(WriteResult(t, RecordToRow(r, creator, now)).1, r.id, h, later).1;
            var w := WriteResult(t, RecordToRow(Fossil(r, h), creator, now)).1;
            Find(f, r.id) == Find(w, r.id) <==> HardensAlike(r.versions, h)
  {
    FixCommutesWithCreate(t, r, creator, now, h, later, ParseThing(creator).value);
  }

  /** A mutable record: saving and then fixing in the tables is found as saving the fossil is. */
  lemma FixCommutesWithSave(t: Tables, r: Record, creator: string, now: Time, h: Digest, later: Time)
    requires WellFormed(t) && Proper(r) && r.state.Mutable?
    requires SaveResult(t, r, creator, now).0.Ok?
    ensures SaveResult(t, Fossil(r, h), creator, now).0.Ok?
    ensures var f := TransitionResult(SaveResult(t, r, creator, now).1, r.id, h, later).1;
            var w := SaveResult(t, Fossil(r, h), creator, now).1;
            Find(f, r.id) == Find(w, r.id) <==> HardensAlike(r.versions, h)
  {
    FixCommutesWithWrite(t, r, creator, now, h, later);
  }

  /** A chain saved out of id order, with a blob in the version that reads
      last: fixing in the tables and fixing the record part ways. */
  lemma FixesDiverge(h: Digest, creator: string, now: Time, later: Time)
    requires ParseThing(creator).Ok?
    ensures var t := Tables(map[], map[], [], []);
            var r := Record(Mutable, 1, Log, None, [Version(11, BlobRef("a", 0)), Version(10, Inline([]))]);
            && WellFormed(t) && Proper(r) && SaveResult(t, r, creator, now).0.Ok?
            && Find(TransitionResult(SaveResult(t, r, creator, now).1, 1, h, later).1, 1) !=
               Find(SaveResult(t, Fossil(r, h), creator, now).1, 1)
  {
    var t := Tables(map[], map[], [], []);
    var r := Record(Mutable, 1, Log, None, [Version(11, BlobRef("a", 0)), Version(10, Inline([]))]);
    EmptyWellFormed();
    assert RecordToRow(r, creator, now).versions ==
           [PersistedVersion(11, 1, BlobRef("a", 0), now), PersistedVersion(10, 1, Inline([]), now)];
    assert !HardensAlike(r.versions, h) by {
      assert FixedKey(h)[0] != "a"[0];
      assert r.versions[0].id == 11 && r.versions[1].id == 10;
    }
    FixCommutesWithSave(t, r, creator, now, h, later);
  }

  // ---- delete ----

  /** Nothing in the tables speaks of record `id`. */
  ghost predicate Gone(t: Tables, id: Uuid) {
    && id !in t.records
    && (forall k | k in t.versions :: t.versions[k].recordId != id)
    && (forall e | e in t.createdBy :: e.record != id)
    && (forall e | e in t.snapshotOf :: e.snapshot != id && e.source != id)
  }

  /** The outcome of a delete and the tables after it. */
  function DeleteResult(t: Tables, id: Uuid): (bool, Tables) {
    if id in t.records then (true, DeleteTx(t, id)) else (false, t)
  }

  lemma DeletedGone(t: Tables, id: Uuid)
    ensures Gone(DeleteTx(t, id), id)
    ensures id !in Abs(DeleteTx(t, id))
  {
  }

  lemma DeletedStore(t: Tables, id: Uuid)
    ensures Abs(DeleteTx(t, id)) == Abs(t) - {id}
  {
    var u := DeleteTx(t, id);
    DeletedGone(t, id);
    forall other | other != id
      ensures Find(u, other) == Find(t, other)
    {
      DeleteFrames(t, id, other);
      FindSame(t, u, other);
    }
    StoreShrunk(t, u, id);
  }

  lemma StoreShrunk(t: Tables, u: Tables, id: Uuid)
    requires forall other | other != id :: Find(u, other) == Find(t, other)
    requires id !in Abs(u)
    ensures Abs(u) == Abs(t) - {id}
  {
    var m, n := Abs(t), Abs(u);
    forall k | k != id
      ensures k in n <==> k in m
      ensures k in m ==> n[k] == m[k]
    {
      StoreSame(t, u, k);
    }
    Shrunk(m, n, id);
  }

  lemma Shrunk(m: Store, n: Store, id: Uuid)
    requires id !in n
    requires forall k | k != id :: (k in n <==> k in m) && (k in m ==> n[k] == m[k])
    ensures n == m - {id}
  {
  }

  lemma StoreSame(t: Tables, u: Tables, id: Uuid)
    requires Find(u, id) == Find(t, id)
    ensures id in Abs(u) <==> id in Abs(t)
    ensures id in Abs(t) ==> Abs(u)[id] == Abs(t)[id]
  {
    StoreAt(t, id);
    StoreAt(u, id);
  }

  /** A delete removes the record from the store and every row that speaks of
      it, and leaves every other record as it is found; a second delete finds nothing to do. */
  lemma DeleteRemoves(t: Tables, id: Uuid)
    ensures var (removed, u) := DeleteResult(t, id);
            && (removed <==> id in t.records) && Abs(u) == Abs(t) - {id}
            && (removed ==> Gone(u, id)) && DeleteResult(u, id) == (false, u)
  {
    if id in t.records {
      DeletedGone(t, id);
      DeletedStore(t, id);
    } else {
      assert Abs(t) - {id} == Abs(t);
    }
  }

  // ---- save_snapshot ----

  /** The snapshot's row under a fresh record id and fresh version ids. */
  function Reminted(row: PersistedRow, id: Uuid, mints: seq<Uuid>): PersistedRow
    requires |mints| == |row.versions|
  {
    row.(record := row.record.(id := id),
         versions := seq(|row.versions|, i requires 0 <= i < |row.versions| =>
           row.versions[i].(id := mints[i], recordId := id)))
  }

  /** The snapshot as it is stored: its own ids, the bodies of the source. */
  function Detached(r: Record, id: Uuid, mints: seq<Uuid>): Record
    requires |mints| == |r.versions|
  {
    r.(id := id, versions := seq(|r.versions|, i requires 0 <= i < |r.versions| => Version(mints[i], r.versions[i].body)))
  }

  /** The outcome of saving a snapshot and the tables after it: the row, then the edge to its source. */
  function SnapshotResult(t: Tables, r: Record, creator: string, now: Time, id: Uuid, mints: seq<Uuid>): (Result<Uuid, DbError>, Tables)
    requires |mints| == |r.versions|
  {
    match WriteResult(t, Reminted(RecordToRow(r, creator, now), id, mints))
    case (Err(e), _) => (Err(e), t)
    case (Ok(_), u) => (Ok(id), u.(snapshotOf := u.snapshotOf + [SnapshotEdge(id, r.id, now)]))
  }

  lemma RemintedIsDetached(r: Record, creator: string, now: Time, id: Uuid, mints: seq<Uuid>)
    requires |mints| == |r.versions|
    ensures Reminted(RecordToRow(r, creator, now), id, mints) == RecordToRow(Detached(r, id, mints), creator, now)
  {
  }

  lemma SnapshotKeepsOthers(t: Tables, d: Record, creator: string, now: Time, edge: SnapshotEdge)
    requires WriteResult(t, RecordToRow(d, creator, now)).0.Ok?
    ensures var w := WriteResult(t, RecordToRow(d, creator, now)).1;
            var u := w.(snapshotOf := w.snapshotOf + [edge]);
            && d.id !in t.records && (forall v | v in d.versions :: v.id !in t.versions)
            && (forall other | other != d.id :: Find(u, other) == Find(t, other))
            && Find(u, d.id) == Find(w, d.id)
  {
    var row, who := RecordToRow(d, creator, now), ParseThing(creator).value;
    var w := CreateTx(t, row, who).value;
    var u := w.(snapshotOf := w.snapshotOf + [edge]);
    forall v | v in d.versions
      ensures v.id !in t.versions
    {
      var i :| 0 <= i < |d.versions| && d.versions[i] == v;
      assert row.versions[i].id == v.id;
    }
    forall other | other != d.id
      ensures Find(u, other) == Find(t, other)
    {
      CreateFrames(t, row, who, other);
      FindSame(t, w, other);
      FindSame(w, u, other);
    }
    FindSame(w, u, d.id);
  }

  /** A saved snapshot is an independent record: its ids are new, its bodies are
      the source's in order exactly when its minted ids go up (and kind and
      creator are plain), and every other record is found as before. */
  lemma SnapshotIndependent(t: Tables, r: Record, creator: string, now: Time, id: Uuid, mints: seq<Uuid>)
    requires WellFormed(t) && Proper(r) && r.state.Snapshot? && |mints| == |r.versions|
    requires SnapshotResult(t, r, creator, now, id, mints).0.Ok?
    ensures var u := SnapshotResult(t, r, creator, now, id, mints).1;
            && id !in t.records && (forall v | v in Detached(r, id, mints).versions :: v.id !in t.versions)
            && (forall other | other != id :: Find(u, other) == Find(t, other))
            && (Find(u, id) == Ok(Some(Loaded(Detached(r, id, mints), Attribution(creator, now)))) <==>
                Ascending(Detached(r, id, mints).versions) && !Disguised(r.kind) && '`' !in creator)
  {
    var d := Detached(r, id, mints);
    RemintedIsDetached(r, creator, now, id, mints);
    SnapshotKeepsOthers(t, d, creator, now, SnapshotEdge(id, r.id, now));
    SnapshotLoadsBackIff(t, d, creator, now);
  }

  lemma SnapshotLoadsBackIff(t: Tables, d: Record, creator: string, now: Time)
    requires WellFormed(t) && Proper(d) && d.state.Snapshot?
    requires WriteResult(t, RecordToRow(d, creator, now)).0.Ok?
    ensures Find(WriteResult(t, RecordToRow(d, creator, now)).1, d.id) == Ok(Some(Loaded(d, Attribution(creator, now)))) <==>
            Ascending(d.versions) && !Disguised(d.kind) && '`' !in creator
  {
    var row, who := RecordToRow(d, creator, now), ParseThing(creator).value;
    RowShape(d, creator, now);
    CreatedFind(t, row, who);
    CreatedChain(t, row, who);
    CreatorRoundTrip(creator);
    KindRoundTrip(d.kind);
    JoinIff(t, d, creator, now, row, who);
  }

  /** Fixing and finding never look at snapshot edges. */
  lemma FixIgnoresSnapshotEdges(t: Tables, edges: seq<SnapshotEdge>, id: Uuid, h: Digest, now: Time)
    ensures Find(TransitionResult(t.(snapshotOf := edges), id, h, now).1, id) == Find(TransitionResult(t, id, h, now).1, id)
  {
    var u := t.(snapshotOf := edges);
    FindSame(t, u, id);
    assert TransitionResult(u, id, h, now).1 == TransitionResult(t, id, h, now).1.(snapshotOf := edges);
    FindSame(TransitionResult(t, id, h, now).1, TransitionResult(u, id, h, now).1, id);
  }

  /** A snapshot: saving and then fixing in the tables is found as saving the fossil of the detached copy is. */
  lemma FixCommutesWithSaveSnapshot(t: Tables, r: Record, creator: string, now: Time, id: Uuid, mints: seq<Uuid>, h: Digest, later: Time)
    requires WellFormed(t) && Proper(r) && r.state.Snapshot? && |mints| == |r.versions|
    requires SnapshotResult(t, r, creator, now, id, mints).0.Ok?
    ensures SaveResult(t, Fossil(Detached(r, id, mints), h), creator, now).0.Ok?
    ensures var f := TransitionResult(SnapshotResult(t, r, creator, now, id, mints).1, id, h, later).1;
            var w := SaveResult(t, Fossil(Detached(r, id, mints), h), creator, now).1;
            Find(f, id) == Find(w, id) <==> HardensAlike(Detached(r, id, mints).versions, h)
  {
    var d := Detached(r, id, mints);
    RemintedIsDetached(r, creator, now, id, mints);
    FixCommutesWithWrite(t, d, creator, now, h, later);
    var w := WriteResult(t, RecordToRow(d, creator, now)).1;
    FixIgnoresSnapshotEdges(w, w.snapshotOf + [SnapshotEdge(id, r.id, now)], id, h, later);
  }

  /** A record just written loads with its versions in the order of their ids. */
  lemma WrittenLoads(t: Tables, d: Record, creator: string, now: Time)
    requires WellFormed(t) && Proper(d)
    requires WriteResult(t, RecordToRow(d, creator, now)).0.Ok?
    ensures var f := Find(WriteResult(t, RecordToRow(d, creator, now)).1, d.id);
            && f.Ok? && f.value.Some?
            && var x := f.value.value.record;
               && x.(kind := d.kind, hash := d.hash, versions := d.versions) == d && x.kind == KindFromString(KindToString(d.kind))
               && Ascending(x.versions) && (Ascending(d.versions) ==> x.versions == d.versions)
  {
    var row, who := RecordToRow(d, creator, now), ParseThing(creator).value;
    var w := CreateTx(t, row, who).value;
    RowShape(d, creator, now);
    CreateKeepsWellFormed(t, row, who);
    FindSucceeds(w, d.id);
    WrittenChain(t, d, creator, now, who);
    CreatedFind(t, row, who);
    FoundRows(w, d.id);
  }

  lemma WrittenChain(t: Tables, d: Record, creator: string, now: Time, who: Thing)
    requires WellFormed(t) && Proper(d) && CreateTx(t, RecordToRow(d, creator, now), who).Some?
    ensures var vs := VersionsFromPersisted(Chain(CreateTx(t, RecordToRow(d, creator, now), who).value.versions, d.id));
            Ascending(vs) && (Ascending(d.versions) ==> vs == d.versions)
  {
    var row := RecordToRow(d, creator, now);
    RowShape(d, creator, now);
    CreatedChain(t, row, who);
    WrittenAscends(t, row, who);
    assert VersionsFromPersisted(row.versions) == d.versions;
  }

  lemma WrittenAscends(t: Tables, row: PersistedRow, who: Thing)
    requires CreateTx(t, row, who).Some?
    requires forall k | k in t.versions :: t.versions[k].recordId in t.records
    requires forall i | 0 <= i < |row.versions| ::
               row.versions[i].recordId == row.record.id && row.versions[i].createdAt == row.versions[0].createdAt
    ensures Ascending(VersionsFromPersisted(Chain(CreateTx(t, row, who).value.versions, row.record.id)))
  {
    var vs := CreateTx(t, row, who).value.versions;
    var c := Chain(vs, row.record.id);
    ChainContents(vs, row.record.id);
    CreatedIds(t, row, who);
    forall i | 0 <= i < |c|
      ensures c[i].createdAt == row.versions[0].createdAt
    {
      assert c[i].id in IdsOf(vs, row.record.id);
      var j :| 0 <= j < |row.versions| && row.versions[j].id == c[i].id;
      WithVersionsAt(t.versions, row.versions, j);
    }
    ReadInOrder(vs, row.record.id, c);
  }

  /** Fixing a stored snapshot of a record answers with the fossil of that
      record under the snapshot's ids, exactly when those ids go up and the kind is plain. */
  lemma SnapshotFixesAsSource(t: Tables, r: Record, creator: string, now: Time, id: Uuid, mints: seq<Uuid>, h: Digest, later: Time)
    requires WellFormed(t) && Proper(r) && r.state.Mutable? && |mints| == |r.versions|
    requires SnapshotResult(t, SnapshotOf(r), creator, now, id, mints).0.Ok?
    ensures TransitionResult(SnapshotResult(t, SnapshotOf(r), creator, now, id, mints).1, id, h, later).0 ==
            Ok(Detached(Fossil(r, h), id, mints)) <==>
            Ascending(Detached(r, id, mints).versions) && !Disguised(r.kind)
  {
    var d := Detached(SnapshotOf(r), id, mints);
    RemintedIsDetached(SnapshotOf(r), creator, now, id, mints);
    SnapshotFound(t, d, creator, now, SnapshotEdge(id, r.id, now));
    var u := SnapshotResult(t, SnapshotOf(r), creator, now, id, mints).1;
    FixAnswers(u, id, h, later);
    DetachedFossil(r, id, mints, Find(u, id).value.value.record, h);
  }

  /** The record a stored snapshot is found as has the fossil of its source, ids aside, exactly when it was found as it was stored. */
  lemma DetachedFossil(r: Record, id: Uuid, mints: seq<Uuid>, x: Record, h: Digest)
    requires |mints| == |r.versions|
    requires var d := Detached(SnapshotOf(r), id, mints);
             && x.(kind := d.kind, hash := d.hash, versions := d.versions) == d && x.kind == KindFromString(KindToString(d.kind))
             && Ascending(x.versions) && (Ascending(d.versions) ==> x.versions == d.versions)
    ensures Fossil(x, h) == Detached(Fossil(r, h), id, mints) <==> Ascending(Detached(r, id, mints).versions) && !Disguised(r.kind)
  {
    var d := Detached(SnapshotOf(r), id, mints);
    SnapshotThenFix(r, h);
    KindRoundTrip(r.kind);
    assert Fossil(d, h) == Detached(Fossil(SnapshotOf(r), h), id, mints);
    if Fossil(x, h) == Fossil(d, h) {
      SameFossilIds(x, d, h);
    }
  }

  /** The transition answers with the fossil of the record found. */
  lemma FixAnswers(t: Tables, id: Uuid, h: Digest, now: Time)
    requires Find(t, id).Ok? && Find(t, id).value.Some? && !Find(t, id).value.value.record.state.Fixed?
    ensures TransitionResult(t, id, h, now).0 == Ok(Fossil(Find(t, id).value.value.record, h))
  {
    FoundRows(t, id);
  }

  /** A stored snapshot as it is found. */
  lemma SnapshotFound(t: Tables, d: Record, creator: string, now: Time, edge: SnapshotEdge)
    requires WellFormed(t) && Proper(d) && d.state.Snapshot?
    requires WriteResult(t, RecordToRow(d, creator, now)).0.Ok?
    ensures var w := WriteResult(t, RecordToRow(d, creator, now)).1;
            var f := Find(w.(snapshotOf := w.snapshotOf + [edge]), d.id);
            && f.Ok? && f.value.Some?
            && var x := f.value.value.record;
               && x.(kind := d.kind, hash := d.hash, versions := d.versions) == d && x.kind == KindFromString(KindToString(d.kind))
               && Ascending(x.versions) && (Ascending(d.versions) ==> x.versions == d.versions)
  {
    var w := WriteResult(t, RecordToRow(d, creator, now)).1;
    WrittenLoads(t, d, creator, now);
    FindSame(w, w.(snapshotOf := w.snapshotOf + [edge]), d.id);
  }

  /** Records with one fossil have the same version ids in the same order. */
  lemma SameFossilIds(x: Record, d: Record, h: Digest)
    requires Fossil(x, h) == Fossil(d, h)
    ensures |x.versions| == |d.versions| && forall i | 0 <= i < |d.versions| :: x.versions[i].id == d.versions[i].id
  {
    forall i | 0 <= i < |d.versions|
      ensures x.versions[i].id == d.versions[i].id
    {
      FossilKeepsRings(x, h, i);
      FossilKeepsRings(d, h, i);
    }
  }

  /** Whatever is done to one record later leaves every other record as it is found. */
  lemma OperationsAreLocal(t: Tables, id: Uuid, other: Uuid, vid: Uuid, body: Body, h: Digest, now: Time)
    requires id != other
    ensures AppendTx(t, vid, VersionRow(id, body, now)).Some? ==>
              Find(AppendTx(t, vid, VersionRow(id, body, now)).value, other) == Find(t, other)
    ensures Find(TransitionResult(t, id, h, now).1, other) == Find(t, other)
    ensures Find(DeleteTx(t, id), other) == Find(t, other)
  {
    if AppendTx(t, vid, VersionRow(id, body, now)).Some? {
      AppendFrames(t, vid, VersionRow(id, body, now), other);
      FindSame(t, AppendTx(t, vid, VersionRow(id, body, now)).value, other);
    }
    var f := Find(t, id);
    if f.Ok? && f.value.Some? && !f.value.value.record.state.Fixed? {
      TransitionFrames(t, id, h, now, f.value.value);
    }
    DeleteFrames(t, id, other);
    FindSame(t, DeleteTx(t, id), other);
  }

  // ---- Snapshot edges, timestamps and refusals ----

  /** A saved snapshot leaves one edge, from itself to its source; nothing but
      that and a delete at one of its ends ever changes the snapshot edges. */
  lemma SnapshotEdges(t: Tables, r: Record, creator: string, now: Time, id: Uuid, mints: seq<Uuid>,
                      gone: Uuid, vid: Uuid, body: Body, h: Digest)
    requires |mints| == |r.versions|
    ensures SnapshotResult(t, r, creator, now, id, mints).1.snapshotOf ==
            if SnapshotResult(t, r, creator, now, id, mints).0.Ok? then t.snapshotOf + [SnapshotEdge(id, r.id, now)] else t.snapshotOf
    ensures forall e :: e in DeleteTx(t, gone).snapshotOf <==> e in t.snapshotOf && e.snapshot != gone && e.source != gone
    ensures forall e :: e in DeleteTx(t, gone).createdBy <==> e in t.createdBy && e.record != gone
    ensures SaveResult(t, r, creator, now).1.snapshotOf == t.snapshotOf
    ensures TransitionResult(t, id, h, now).1.snapshotOf == t.snapshotOf
    ensures AppendTx(t, vid, VersionRow(id, body, now)).Some? ==>
              AppendTx(t, vid, VersionRow(id, body, now)).value.snapshotOf == t.snapshotOf
  {
  }

  /** Appends and transitions touch their record: its row says when it was last changed, and still when it was created. */
  lemma RowsAreTouched(t: Tables, id: Uuid, vid: Uuid, body: Body, h: Digest, now: Time)
    requires id in t.records
    ensures AppendTx(t, vid, VersionRow(id, body, now)).Some? ==>
              AppendTx(t, vid, VersionRow(id, body, now)).value.records[id] == t.records[id].(updatedAt := now)
    ensures TransitionResult(t, id, h, now).0.Ok? ==>
              var row := TransitionResult(t, id, h, now).1.records[id];
              row.updatedAt == now && row.createdAt == t.records[id].createdAt && row.kind == t.records[id].kind
  {
  }

  /** A save succeeds exactly for a record that is not a snapshot, under an id
      that is free, with versions of free and different ids and a creator that
      splits; and it tells an id that is taken from every other failure. */
  lemma SaveSucceedsIff(t: Tables, r: Record, creator: string, now: Time)
    requires WellFormed(t)
    ensures var res := SaveResult(t, r, creator, now).0;
            && (res.Ok? <==> && !r.state.Snapshot? && r.id !in Abs(t) && ':' in creator
                             && (forall v | v in r.versions :: v.id !in t.versions)
                             && (forall i, j | 0 <= i < j < |r.versions| :: r.versions[i].id != r.versions[j].id))
            && (res == Err(AlreadyExists(r.id)) <==> !r.state.Snapshot? && r.id in Abs(t))
            && (res == Err(SaveSnapshotRequiresExplicitMethod) <==> r.state.Snapshot?)
  {
    AbsHoldsAll(t, r.id);
    FreshIds(t.versions, r, creator, now);
    SplitsIff(creator);
  }

  lemma SplitsIff(creator: string)
    ensures ParseThing(creator).Ok? <==> ':' in creator
    ensures ParseThing(creator).Err? ==> ParseThing(creator).error == MalformedThing
  {
    var i := FirstColon(creator);
  }

  lemma FreshIds(vs: VersionTable, r: Record, creator: string, now: Time)
    ensures FreshVersions(vs, RecordToRow(r, creator, now).versions) <==>
            && (forall v | v in r.versions :: v.id !in vs)
            && (forall i, j | 0 <= i < j < |r.versions| :: r.versions[i].id != r.versions[j].id)
  {
    var added := RecordToRow(r, creator, now).versions;
    assert forall i | 0 <= i < |added| :: added[i].id == r.versions[i].id && r.versions[i] in r.versions;
  }

  /** A transition succeeds exactly on a record that is there and not fixed;
      otherwise it says which and changes nothing. */
  lemma TransitionSucceedsIff(t: Tables, id: Uuid, h: Digest, now: Time)
    requires WellFormed(t)
    ensures var (res, u) := TransitionResult(t, id, h, now);
            && (res.Ok? <==> id in Abs(t) && !Abs(t)[id].record.state.Fixed?)
            && (res == Err(StateMismatch) <==> id in Abs(t) && Abs(t)[id].record.state.Fixed?)
            && (res == Err(EmptyVersionChain(id)) <==> id !in Abs(t))
            && (res.Err? ==> u == t)
  {
    AbsHoldsAll(t, id);
  }

  // ---- list_by_creator ----

  /** The edges of one creator. */
  function EdgesBy(edges: seq<CreatedBy>, who: Thing): (r: seq<CreatedBy>)
    ensures forall e :: e in r <==> e in edges && e.creator == who
  {
    if edges == [] then []
    else if edges[0].creator == who then [edges[0]] + EdgesBy(edges[1..], who)
    else EdgesBy(edges[1..], who)
  }

  predicate ByTime(edges: seq<CreatedBy>) {
    forall i, j | 0 <= i < j < |edges| :: edges[i].at <= edges[j].at
  }

  function Inserted(edges: seq<CreatedBy>, e: CreatedBy): (r: seq<CreatedBy>)
    ensures multiset(r) == multiset(edges) + multiset{e}
  {
    if edges == [] then [e]
    else if e.at < edges[0].at then
      assert multiset([e] + edges) == multiset{e} + multiset(edges);
      [e] + edges
    else
      assert edges == [edges[0]] + edges[1..];
      [edges[0]] + Inserted(edges[1..], e)
  }

  lemma {:induction false} InsertedByTime(edges: seq<CreatedBy>, e: CreatedBy)
    requires ByTime(edges)
    ensures ByTime(Inserted(edges, e))
  {
    if edges != [] && edges[0].at <= e.at {
      var rest := Inserted(edges[1..], e);
      InsertedByTime(edges[1..], e);
      forall x | x in rest
        ensures edges[0].at <= x.at
      {
        assert x in multiset(rest);
        if x != e { assert x in edges[1..]; }
      }
    }
  }

  /** A query's rows in order of time. */
  function Sorted(edges: seq<CreatedBy>): (r: seq<CreatedBy>)
    ensures multiset(r) == multiset(edges)
  {
    if edges == [] then []
    else
      assert edges == edges[..|edges| - 1] + [edges[|edges| - 1]];
      Inserted(Sorted(edges[..|edges| - 1]), edges[|edges| - 1])
  }

  lemma {:induction false} SortedByTime(edges: seq<CreatedBy>)
    ensures ByTime(Sorted(edges))
  {
    if edges != [] {
      SortedByTime(edges[..|edges| - 1]);
      InsertedByTime(Sorted(edges[..|edges| - 1]), edges[|edges| - 1]);
    }
  }

  /** The records of a list of finds, in order; the first error ends the list. */
  function Collect(found: seq<Result<Option<Loaded>, DbError>>): Result<seq<Loaded>, DbError> {
    if found == [] then Ok([])
    else
      match Collect(found[..|found| - 1])
      case Err(e) => Err(e)
      case Ok(out) =>
        match found[|found| - 1]
        case Err(e) => Err(e)
        case Ok(None) => Ok(out)
        case Ok(Some(l)) => Ok(out + [l])
  }

  lemma {:induction false} CollectFails(found: seq<Result<Option<Loaded>, DbError>>, i: nat)
    requires i <= |found| && Collect(found[..i]).Err?
    ensures Collect(found) == Collect(found[..i])
    decreases |found|
  {
    if i < |found| {
      assert found[..|found| - 1][..i] == found[..i];
      CollectFails(found[..|found| - 1], i);
    } else {
      assert found[..i] == found;
    }
  }

  /** What a find returns for each of a list of edges. */
  function Finds(t: Tables, edges: seq<CreatedBy>): (r: seq<Result<Option<Loaded>, DbError>>)
    ensures |r| == |edges|
  {
    seq(|edges|, i requires 0 <= i < |edges| => Find(t, edges[i].record))
  }

  function ListResult(t: Tables, creator: string): Result<seq<Loaded>, DbError> {
    match ParseThing(creator)
    case Err(e) => Err(e)
    case Ok(who) => Collect(Finds(t, Sorted(EdgesBy(t.createdBy, who))))
  }

  /** Finds that all succeed are collected whole. */
  lemma {:induction false} CollectAll(found: seq<Result<Option<Loaded>, DbError>>)
    requires forall x | x in found :: x.Ok? && x.value.Some?
    ensures var r := Collect(found);
            r.Ok? && |r.value| == |found| && forall i | 0 <= i < |found| :: found[i] == Ok(Some(r.value[i]))
  {
    if found != [] {
      CollectAll(found[..|found| - 1]);
      assert found[|found| - 1] in found;
    }
  }

  /** A record's attribution is that of its one edge. */
  lemma AttributionIsEdge(t: Tables, e: CreatedBy, l: Loaded)
    requires WellFormed(t) && e in t.createdBy && Find(t, e.record) == Ok(Some(l))
    ensures l.attribution == AttributionOf(e) && l.record.id == e.record
  {
    FindSucceeds(t, e.record);
    var f := EdgeOf(t.createdBy, e.record).value;
    var i :| 0 <= i < |t.createdBy| && t.createdBy[i] == e;
    var j :| 0 <= j < |t.createdBy| && t.createdBy[j] == f;
    assert i == j;
  }

  lemma {:induction false} OnceEach(edges: seq<CreatedBy>, e: CreatedBy)
    requires Distinct(edges)
    ensures multiset(edges)[e] <= 1
  {
    if edges != [] {
      assert edges == [edges[0]] + edges[1..];
      OnceEach(edges[1..], e);
      assert forall j | 0 <= j < |edges[1..]| :: edges[1..][j].record != edges[0].record;
    }
  }

  lemma {:induction false} EdgesByCount(edges: seq<CreatedBy>, who: Thing, e: CreatedBy)
    ensures multiset(EdgesBy(edges, who))[e] <= multiset(edges)[e]
  {
    if edges != [] {
      assert edges == [edges[0]] + edges[1..];
      EdgesByCount(edges[1..], who, e);
    }
  }

  lemma TwiceCounted(edges: seq<CreatedBy>, i: nat, j: nat)
    requires i < j < |edges| && edges[i] == edges[j]
    ensures multiset(edges)[edges[i]] >= 2
  {
    assert edges == edges[..j] + edges[j..];
    assert edges[i] in edges[..j] && edges[j] in edges[j..];
  }

  /** The listed edges point at different records. */
  lemma ListedDistinct(edges: seq<CreatedBy>, who: Thing)
    requires Distinct(edges)
    ensures Distinct(Sorted(EdgesBy(edges, who)))
  {
    var r := Sorted(EdgesBy(edges, who));
    forall i, j | 0 <= i < j < |r|
      ensures r[i].record != r[j].record
    {
      assert r[i] in multiset(r) && r[j] in multiset(r);
      if r[i].record == r[j].record {
        assert r[i] in edges && r[j] in edges;
        var a :| 0 <= a < |edges| && edges[a] == r[i];
        var b :| 0 <= b < |edges| && edges[b] == r[j];
        assert a == b;
        TwiceCounted(r, i, j);
        EdgesByCount(edges, who, r[i]);
        OnceEach(edges, r[i]);
        assert false;
      }
    }
  }

  /** Records `out` are those of the edges `edges`, each with the attribution of its edge. */
  ghost predicate Listed(edges: seq<CreatedBy>, out: seq<Loaded>) {
    |out| == |edges| && forall i | 0 <= i < |edges| :: out[i].record.id == edges[i].record && out[i].attribution == AttributionOf(edges[i])
  }

  ghost predicate InList(out: seq<Loaded>, id: Uuid) {
    exists i | 0 <= i < |out| :: out[i].record.id == id
  }

  /** The edges a listing goes through: one creator's, all of them, in order of time. */
  lemma ListedEdges(t: Tables, who: Thing)
    requires Distinct(t.createdBy)
    ensures var edges := Sorted(EdgesBy(t.createdBy, who));
            && Distinct(edges) && ByTime(edges)
            && forall e :: e in edges <==> e in t.createdBy && e.creator == who
  {
    var edges := Sorted(EdgesBy(t.createdBy, who));
    forall e
      ensures e in edges <==> e in t.createdBy && e.creator == who
    {
      assert e in edges <==> e in multiset(edges);
      assert e in multiset(edges) <==> e in EdgesBy(t.createdBy, who);
    }
    SortedByTime(EdgesBy(t.createdBy, who));
    ListedDistinct(t.createdBy, who);
  }

  /** Going through edges of well-formed tables lists their records. */
  lemma ListCollected(t: Tables, edges: seq<CreatedBy>)
    requires WellFormed(t) && forall e | e in edges :: e in t.createdBy
    ensures var r := Collect(Finds(t, edges));
            r.Ok? && Listed(edges, r.value) && forall i | 0 <= i < |edges| :: Find(t, edges[i].record) == Ok(Some(r.value[i]))
  {
    var found := Finds(t, edges);
    forall i | 0 <= i < |found|
      ensures found[i].Ok? && found[i].value.Some?
    {
      assert edges[i] in edges;
      FindSucceeds(t, edges[i].record);
    }
    CollectAll(found);
    var out := Collect(found).value;
    forall i | 0 <= i < |edges|
      ensures Find(t, edges[i].record) == Ok(Some(out[i]))
      ensures out[i].record.id == edges[i].record && out[i].attribution == AttributionOf(edges[i])
    {
      assert edges[i] in edges && found[i] == Find(t, edges[i].record);
      AttributionIsEdge(t, edges[i], out[i]);
    }
  }

  /** Listing by creator yields the records whose edge names that creator:
      all of them, each once, in order of time, each as a find returns it. */
  lemma ListIsExact(t: Tables, creator: string)
    requires WellFormed(t) && ParseThing(creator).Ok?
    ensures var who := ParseThing(creator).value;
            var r := ListResult(t, creator);
            && r.Ok?
            && (forall i | 0 <= i < |r.value| ::
                  Find(t, r.value[i].record.id) == Ok(Some(r.value[i])) && r.value[i].attribution.creator == Literal(who))
            && (forall i, j | 0 <= i < j < |r.value| ::
                  r.value[i].record.id != r.value[j].record.id && r.value[i].attribution.at <= r.value[j].attribution.at)
            && (forall e | e in t.createdBy :: e.creator == who <==> InList(r.value, e.record))
  {
    var who := ParseThing(creator).value;
    var edges := Sorted(EdgesBy(t.createdBy, who));
    ListedEdges(t, who);
    ListCollected(t, edges);
    ListedExactly(t, who, edges, ListResult(t, creator).value);
  }

  lemma ListedExactly(t: Tables, who: Thing, edges: seq<CreatedBy>, out: seq<Loaded>)
    requires Distinct(t.createdBy) && Listed(edges, out)
    requires forall e :: e in edges <==> e in t.createdBy && e.creator == who
    ensures forall e | e in t.createdBy :: e.creator == who <==> InList(out, e.record)
    ensures forall i | 0 <= i < |out| :: out[i].attribution.creator == Literal(who)
  {
    forall e | e in t.createdBy
      ensures e.creator == who <==> InList(out, e.record)
    {
      if e.creator == who {
        assert e in edges;
        var i :| 0 <= i < |edges| && edges[i] == e;
        assert out[i].record.id == e.record;
      }
      if i :| 0 <= i < |out| && out[i].record.id == e.record {
        assert edges[i] in edges;
        var a :| 0 <= a < |t.createdBy| && t.createdBy[a] == edges[i];
        var b :| 0 <= b < |t.createdBy| && t.createdBy[b] == e;
        assert a == b;
      }
    }
    forall i | 0 <= i < |out|
      ensures out[i].attribution.creator == Literal(who)
    {
      assert edges[i] in edges;
    }
  }

  /** In well-formed tables a listing fails exactly for a creator without a colon. */
  lemma ListFailsIff(t: Tables, creator: string)
    requires WellFormed(t)
    ensures ListResult(t, creator).Ok? <==> ':' in creator
    ensures ListResult(t, creator).Err? ==> ListResult(t, creator).error == MalformedThing
  {
    SplitsIff(creator);
    if ParseThing(creator).Ok? {
      ListIsExact(t, creator);
    }
  }

  /** No stored creator needs quoting. */
  predicate PlainCreators(t: Tables) {
    forall e | e in t.createdBy :: ':' !in e.creator.table && '`' !in e.creator.table + e.creator.key
  }

  /** With plain creators, a record shows a creator exactly when its edge names it. */
  lemma ShownIsStored(t: Tables, creator: string, id: Uuid)
    requires WellFormed(t) && PlainCreators(t) && id in t.records
    requires ParseThing(creator).Ok? && '`' !in creator
    ensures EdgeOf(t.createdBy, id).Some? && EdgeOf(t.createdBy, id).value in t.createdBy
    ensures EdgeOf(t.createdBy, id).value.record == id
    ensures EdgeOf(t.createdBy, id).value.creator == ParseThing(creator).value <==>
            Find(t, id).Ok? && Find(t, id).value.Some? && Find(t, id).value.value.attribution.creator == creator
  {
    var e, who := EdgeOf(t.createdBy, id).value, ParseThing(creator).value;
    FindSucceeds(t, id);
    AttributionIsEdge(t, e, Find(t, id).value.value);
    CreatorRoundTrip(creator);
    PlainParse(creator);
    if Literal(e.creator) == creator {
      LiteralInjective(e.creator, who);
    }
  }

  /** With plain creators, the list is of exactly the records of the store that show that creator. */
  lemma ListMatchesStore(t: Tables, creator: string, id: Uuid)
    requires WellFormed(t) && PlainCreators(t)
    requires ParseThing(creator).Ok? && '`' !in creator
    ensures ListResult(t, creator).Ok?
    ensures InList(ListResult(t, creator).value, id) <==> id in Abs(t) && Abs(t)[id].attribution.creator == creator
  {
    ListIsExact(t, creator);
    AbsHoldsAll(t, id);
    if id in t.records {
      ShownIsStored(t, creator, id);
    }
  }

  lemma PlainParse(creator: string)
    requires ParseThing(creator).Ok? && '`' !in creator
    ensures var who := ParseThing(creator).value; ':' !in who.table && '`' !in who.table + who.key
  {
  }
}
