/** What holds in every interleaving of any requests, overlapping or not: the
    tables stay well-formed, blobs stay addressed by their content, nothing
    stored is lost, and a record read in three steps always loads. */
module Integrity {
  import opened Basics
  import opened Digests
  import opened Core
  import opened Things
  import opened Convert
  import opened Tables
  import opened Load
  import opened Storage
  import opened Server

  // ---- How stored data may change ----

  /** Same inline bytes, or blobs of the same size. */
  predicate SameShape(a: Body, b: Body) {
    match (a, b)
    case (Inline(x), Inline(y)) => x == y
    case (BlobRef(_, x), BlobRef(_, y)) => x == y
    case _ => false
  }

  ghost predicate RecordMoves(a: RecordRow, b: RecordRow) {
    && a.kind == b.kind && a.createdAt == b.createdAt
    && ((a.state == b.state && a.contentHash == b.contentHash) || (b.state == "fixed" && b.contentHash.Some?))
  }

  ghost predicate VersionMoves(a: VersionRow, b: VersionRow) {
    a.recordId == b.recordId && a.createdAt == b.createdAt && BodyMoves(a.body, b.body)
  }

  /** Records keep the edges they have. */
  ghost predicate EdgesKept(t: Tables, u: Tables) {
    && (forall id | id in t.records :: EdgeOf(u.createdBy, id) == EdgeOf(t.createdBy, id))
    && u.snapshotOf == t.snapshotOf
  }

  /** From `t` to `u` no row is lost, records keep their edges and only become fixed, versions only move blobs. */
  ghost predicate Evolves(t: Tables, u: Tables) {
    && (forall id | id in t.records :: id in u.records && RecordMoves(t.records[id], u.records[id]))
    && (forall k | k in t.versions :: k in u.versions && VersionMoves(t.versions[k], u.versions[k]))
    && EdgesKept(t, u)
  }

  lemma EvolvesTransitive(t: Tables, u: Tables, v: Tables)
    requires Evolves(t, u) && Evolves(u, v)
    ensures Evolves(t, v)
  {
    forall id | id in t.records
      ensures id in v.records && RecordMoves(t.records[id], v.records[id])
    {
      assert RecordMoves(u.records[id], v.records[id]);
    }
    forall k | k in t.versions
      ensures k in v.versions && VersionMoves(t.versions[k], v.versions[k])
    {
      assert VersionMoves(u.versions[k], v.versions[k]);
    }
  }

  // ---- The invariant ----

  /** Whatever lies under a content-addressed key has that content. */
  ghost predicate Addressed(env: Env, blobs: Blobs) {
    && (forall h: Digest | FixedKey(h) in blobs :: env.sha(blobs[FixedKey(h)]) == h)
    && (forall h: Digest | AssetKey(h) in blobs :: env.sha(blobs[AssetKey(h)]) == h)
  }

  ghost predicate Seen(t: Tables, id: Uuid, v: PersistedVersion) {
    v.id in t.versions && t.versions[v.id].recordId == id && SameShape(v.body, t.versions[v.id].body)
  }

  /** What a half-done read of record `id` has is still vouched for by the tables. */
  ghost predicate ReadingOk(t: Tables, id: Uuid, reading: Reading) {
    match reading
    case ReadRecord => true
    case ReadVersions(row) => id in t.records && row.id == id && HashFits(row.state, row.contentHash)
    case ReadEdge(row, versions) =>
      && id in t.records && row.id == id && HashFits(row.state, row.contentHash)
      && versions != [] && forall v | v in versions :: Seen(t, id, v)
  }

  /** The database errors a request can be answered with: none of them speaks of damaged rows. */
  predicate Benign(e: DbError) {
    e.StateMismatch? || e.AlreadyExists? || e.Surreal?
  }

  ghost predicate PcOk(env: Env, t: Tables, blobs: Blobs, pc: Pc) {
    match pc
    case SaveSelect(r, creator, _) => Proper(r) && r.state.Mutable? && ParseThing(creator).Ok?
    case SaveCreate(r, creator, _) => Proper(r) && r.state.Mutable? && ParseThing(creator).Ok?
    case Finding(id, reading, _) => ReadingOk(t, id, reading)
    case Appending(id, _, row) => id in t.records && row.recordId == id
    case Hashing(id, _, _) => id in t.records
    case Copying(id, h, key) => id in t.records && key in blobs && env.sha(blobs[key]) == h
    case Fossilizing(id, h, bytes) => id in t.records && env.sha(bytes) == h
    case Assembling(id, _, reading) => id in t.records && ReadingOk(t, id, reading)
    case Committing(id, h, _, vid, body) =>
      && id in t.records && vid in t.versions && t.versions[vid].recordId == id
      && SameShape(body, t.versions[vid].body) && (body.BlobRef? ==> body.key == FixedKey(h))
    case Uploading(_) => true
    case Done(resp) => resp.DbFailed? ==> Benign(resp.e)
  }

  ghost predicate Inv(env: Env, s: Sys) {
    && WellFormed(s.tables)
    && Addressed(env, s.blobs)
    && forall p | p in s.procs :: PcOk(env, s.tables, s.blobs, s.procs[p].pc)
  }

  // ---- Keys ----

  lemma AssetKeyInjective(a: Digest, b: Digest)
    requires AssetKey(a) == AssetKey(b)
    ensures a == b
  {
    assert HexOf(a) == AssetKey(a)[8..];
    assert HexOf(b) == AssetKey(b)[8..];
    HexInjective(a, b);
  }

  lemma KeysApart(a: Digest, b: Digest)
    ensures FixedKey(a) != AssetKey(b)
  {
    assert FixedKey(a)[1] == 'f' && AssetKey(b)[1] == 'a';
  }

  lemma PutKeepsAddressed(env: Env, blobs: Blobs, pc: Pc)
    requires Addressed(env, blobs)
    requires pc.Fossilizing? ==> env.sha(pc.bytes) == pc.h
    ensures Addressed(env, BlobsAfter(env, blobs, pc))
    ensures Grows(blobs, BlobsAfter(env, blobs, pc))
  {
    var after := BlobsAfter(env, blobs, pc);
    forall h: Digest | FixedKey(h) in after
      ensures env.sha(after[FixedKey(h)]) == h
    {
      if pc.Fossilizing? && FixedKey(h) == FixedKey(pc.h) {
        FixedKeyInjective(h, pc.h);
      }
      if pc.Uploading? {
        KeysApart(h, env.sha(pc.bytes));
      }
    }
    forall h: Digest | AssetKey(h) in after
      ensures env.sha(after[AssetKey(h)]) == h
    {
      if pc.Uploading? && AssetKey(h) == AssetKey(env.sha(pc.bytes)) {
        AssetKeyInjective(h, env.sha(pc.bytes));
      }
      if pc.Fossilizing? {
        KeysApart(pc.h, h);
      }
    }
  }

  // ---- One step of the tables ----

  lemma EvolvesSelf(t: Tables)
    ensures Evolves(t, t)
  {
  }

  lemma CreateEvolves(t: Tables, row: PersistedRow, who: Thing)
    requires CreateTx(t, row, who).Some?
    ensures Evolves(t, CreateTx(t, row, who).value)
  {
    var u := CreateTx(t, row, who).value;
    assert forall k | k in t.versions :: k in u.versions && u.versions[k] == t.versions[k];
    forall id | id in t.records
      ensures EdgeOf(u.createdBy, id) == EdgeOf(t.createdBy, id)
    {
      EdgeOfAppend(t.createdBy, CreatedBy(who, row.record.id, row.attribution.at), id);
    }
  }

  lemma CreateStep(t: Tables, r: Record, creator: string, now: Time, who: Thing)
    requires WellFormed(t) && Proper(r) && !r.state.Fixed?
    requires CreateTx(t, RecordToRow(r, creator, now), who).Some?
    ensures WellFormed(CreateTx(t, RecordToRow(r, creator, now), who).value)
  {
    CreateKeepsWellFormed(t, RecordToRow(r, creator, now), who);
  }

  lemma AppendEvolves(t: Tables, vid: Uuid, row: VersionRow)
    requires AppendTx(t, vid, row).Some?
    ensures Evolves(t, AppendTx(t, vid, row).value)
  {
  }

  lemma FixEvolves(t: Tables, id: Uuid, h: Digest, now: Time, vid: Uuid, body: Body)
    requires vid in t.versions && SameShape(body, t.versions[vid].body)
    requires body.BlobRef? ==> body.key == FixedKey(h)
    ensures Evolves(t, FixTx(t, id, HexOf(h), now, vid, body))
  {
    assert BodyMoves(t.versions[vid].body, body);
  }

  lemma TablesEvolve(env: Env, t: Tables, blobs: Blobs, pc: Pc)
    requires PcOk(env, t, blobs, pc)
    ensures Evolves(t, TablesAfter(t, pc))
  {
    match pc {
      case SaveCreate(r, creator, now) =>
        var who := ParseThing(creator).value;
        if CreateTx(t, RecordToRow(r, creator, now), who).Some? {
          CreateEvolves(t, RecordToRow(r, creator, now), who);
        } else {
          EvolvesSelf(t);
        }
      case Appending(_, vid, row) =>
        if AppendTx(t, vid, row).Some? {
          AppendEvolves(t, vid, row);
        } else {
          EvolvesSelf(t);
        }
      case Committing(id, h, now, vid, body) =>
        FixEvolves(t, id, h, now, vid, body);
      case _ => EvolvesSelf(t);
    }
  }

  lemma TablesStayWellFormed(env: Env, t: Tables, blobs: Blobs, pc: Pc)
    requires WellFormed(t) && PcOk(env, t, blobs, pc)
    ensures WellFormed(TablesAfter(t, pc))
  {
    match pc {
      case SaveCreate(r, creator, now) =>
        var who := ParseThing(creator).value;
        if CreateTx(t, RecordToRow(r, creator, now), who).Some? {
          CreateStep(t, r, creator, now, who);
        }
      case Appending(_, vid, row) =>
        if AppendTx(t, vid, row).Some? {
          AppendKeepsWellFormed(t, vid, row);
        }
      case Committing(id, h, now, vid, body) =>
        FixKeepsWellFormed(t, id, h, now, vid, body);
      case _ =>
    }
  }

  // ---- One step of a counter ----

  /** What a request relies on survives every change other requests can make. */
  lemma PcOkStable(env: Env, t: Tables, blobs: Blobs, u: Tables, after: Blobs, pc: Pc)
    requires PcOk(env, t, blobs, pc)
    requires Evolves(t, u) && Grows(blobs, after)
    ensures PcOk(env, u, after, pc)
  {
    match pc {
      case Committing(_, _, _, vid, _) =>
        assert VersionMoves(t.versions[vid], u.versions[vid]);
      case Finding(id, reading, _) => ReadingStable(t, u, id, reading);
      case Assembling(id, _, reading) => ReadingStable(t, u, id, reading);
      case _ =>
    }
  }

  lemma ReadingStable(t: Tables, u: Tables, id: Uuid, reading: Reading)
    requires ReadingOk(t, id, reading) && Evolves(t, u)
    ensures ReadingOk(u, id, reading)
  {
    if reading.ReadEdge? {
      forall v | v in reading.versions
        ensures Seen(u, id, v)
      {
        assert Seen(t, id, v);
        assert VersionMoves(t.versions[v.id], u.versions[v.id]);
      }
    }
  }

  /** A read went on, found a proper record, or found none before it began. */
  ghost predicate ProgressOk(t: Tables, id: Uuid, reading: Reading, p: Progress) {
    match p
    case More(further) => ReadingOk(t, id, further)
    case Missing => reading.ReadRecord? && id !in t.records
    case Failed(_) => false
    case Found(l) => && reading.ReadEdge? && id in t.records && Proper(l.record) && l.record.id == id
                     && l.record.versions == VersionsFromPersisted(reading.versions)
                     && l.record.state == reading.row.state
  }

  lemma ReadStepOk(t: Tables, id: Uuid, reading: Reading)
    requires WellFormed(t) && ReadingOk(t, id, reading)
    ensures ProgressOk(t, id, reading, ReadStep(t, id, reading))
  {
    match reading {
      case ReadRecord =>
      case ReadVersions(row) =>
        ChainNonEmpty(t.versions, id);
        ChainContents(t.versions, id);
        var c := Chain(t.versions, id);
        forall v | v in c
          ensures Seen(t, id, v)
        {
          var i :| 0 <= i < |c| && c[i] == v;
        }
      case ReadEdge(row, versions) =>
    }
  }

  lemma FindingStep(env: Env, t: Tables, blobs: Blobs, id: Uuid, reading: Reading, next: Next, mint: Mint)
    requires ProgressOk(t, id, reading, ReadStep(t, id, reading))
    ensures PcOk(env, t, blobs, PcAfter(env, t, blobs, Finding(id, reading, next), mint))
  {
  }

  lemma PrepareOk(env: Env, t: Tables, blobs: Blobs, id: Uuid, h: Digest, vs: seq<PersistedVersion>, l: Loaded, mint: Mint)
    requires id in t.records && vs != [] && Seen(t, id, vs[|vs| - 1])
    requires l.record.versions == VersionsFromPersisted(vs)
    ensures PcOk(env, t, blobs, Prepare(id, h, l, mint))
  {
  }

  lemma AssemblingStep(env: Env, t: Tables, blobs: Blobs, id: Uuid, h: Digest, reading: Reading, mint: Mint)
    requires id in t.records && ReadingOk(t, id, reading)
    requires ProgressOk(t, id, reading, ReadStep(t, id, reading))
    ensures PcOk(env, t, blobs, PcAfter(env, t, blobs, Assembling(id, h, reading), mint))
  {
    var p := ReadStep(t, id, reading);
    if p.Found? {
      PrepareOk(env, t, blobs, id, h, reading.versions, p.l, mint);
    }
  }

  /** A step leaves its own request with something it can rely on. */
  lemma OwnStep(env: Env, t: Tables, blobs: Blobs, pc: Pc, mint: Mint)
    requires WellFormed(t) && PcOk(env, t, blobs, pc)
    ensures PcOk(env, TablesAfter(t, pc), BlobsAfter(env, blobs, pc), PcAfter(env, t, blobs, pc, mint))
  {
    match pc {
      case Finding(id, reading, next) =>
        ReadStepOk(t, id, reading);
        FindingStep(env, t, blobs, id, reading, next, mint);
      case Assembling(id, h, reading) =>
        ReadStepOk(t, id, reading);
        AssemblingStep(env, t, blobs, id, h, reading, mint);
      case _ =>
    }
  }

  lemma BeginOk(env: Env, t: Tables, blobs: Blobs, req: Request, mint: Mint)
    ensures PcOk(env, t, blobs, Begin(env, req, mint))
  {
    if req.PostRecord? {
      ClaimsParse(req.sub);
    }
  }

  /** A step of one request, seen by all. */
  lemma StepOk(env: Env, s: Sys, pid: nat, mint: Mint)
    requires Inv(env, s) && pid in s.procs
    ensures var n := Apply(env, s, Step(pid, mint));
            Inv(env, n) && Evolves(s.tables, n.tables) && Grows(s.blobs, n.blobs)
  {
    var n, pc := Apply(env, s, Step(pid, mint)), s.procs[pid].pc;
    TablesEvolve(env, s.tables, s.blobs, pc);
    TablesStayWellFormed(env, s.tables, s.blobs, pc);
    PutKeepsAddressed(env, s.blobs, pc);
    forall p | p in n.procs
      ensures PcOk(env, n.tables, n.blobs, n.procs[p].pc)
    {
      if p == pid {
        OwnStep(env, s.tables, s.blobs, pc, mint);
      } else {
        PcOkStable(env, s.tables, s.blobs, n.tables, n.blobs, s.procs[p].pc);
      }
    }
  }

  /** A request arrives, or is cut off. */
  lemma ArrivalOk(env: Env, s: Sys, a: Action)
    requires Inv(env, s) && !a.Step?
    ensures Inv(env, Apply(env, s, a)) && Apply(env, s, a).tables == s.tables && Apply(env, s, a).blobs == s.blobs
  {
    if a.Start? {
      BeginOk(env, s.tables, s.blobs, a.req, a.mint);
    }
  }

  /** Every action keeps the invariant and only moves stored data forward. */
  lemma ApplyOk(env: Env, s: Sys, a: Action)
    requires Inv(env, s)
    ensures Inv(env, Apply(env, s, a))
    ensures Evolves(s.tables, Apply(env, s, a).tables) && Grows(s.blobs, Apply(env, s, a).blobs)
  {
    if a.Step? && a.pid in s.procs {
      StepOk(env, s, a.pid, a.mint);
    } else {
      EvolvesSelf(s.tables);
      if !a.Step? {
        ArrivalOk(env, s, a);
      }
    }
  }

  /** A system that has not served anything yet, over any well-formed data. */
  ghost predicate Initial(env: Env, s: Sys) {
    WellFormed(s.tables) && Addressed(env, s.blobs) && s.procs == map[]
  }

  /** In every run the tables stay well-formed and the blobs addressed, and
      between any two moments of the run stored data only moves forward. */
  lemma {:induction false} AlwaysIntact(env: Env, s: Sys, run: seq<Action>)
    requires Inv(env, s)
    ensures Inv(env, Exec(env, s, run))
    ensures Evolves(s.tables, Exec(env, s, run).tables)
    ensures Grows(s.blobs, Exec(env, s, run).blobs)
    decreases |run|
  {
    if run != [] {
      var before := Exec(env, s, run[..|run| - 1]);
      AlwaysIntact(env, s, run[..|run| - 1]);
      ApplyOk(env, before, run[|run| - 1]);
      EvolvesTransitive(s.tables, before.tables, Exec(env, s, run).tables);
    }
  }

  // ---- What a caller can rely on ----

  /** Between any two moments of a run stored data only moves forward and no
      key's bytes change; the invariant holds at both. */
  lemma BetweenMoments(env: Env, s: Sys, run: seq<Action>, i: nat, j: nat)
    requires Initial(env, s) && i <= j <= |run|
    ensures var a, b := Exec(env, s, run[..i]), Exec(env, s, run[..j]);
            Inv(env, a) && Inv(env, b) && Evolves(a.tables, b.tables) && Grows(a.blobs, b.blobs)
  {
    var a := Exec(env, s, run[..i]);
    AlwaysIntact(env, s, run[..i]);
    AlwaysIntact(env, a, run[i..j]);
    assert run[..i] + run[i..j] == run[..j];
    ExecSplit(env, s, run[..i], run[i..j]);
  }

  /** Reading three times under any interference never meets damaged rows: no
      request is ever answered with such an error, and every record loads. */
  lemma ReadsNeverFail(env: Env, s: Sys, run: seq<Action>, pid: nat, id: Uuid)
    requires Initial(env, s)
    ensures var n := Exec(env, s, run);
            && Find(n.tables, id).Ok? && (Find(n.tables, id).value.Some? <==> id in n.tables.records)
            && (pid in n.procs && n.procs[pid].pc.Done? && n.procs[pid].pc.resp.DbFailed? ==>
                  Benign(n.procs[pid].pc.resp.e))
  {
    AlwaysIntact(env, s, run);
    var n := Exec(env, s, run);
    FindSucceeds(n.tables, id);
    assert pid in n.procs ==> PcOk(env, n.tables, n.blobs, n.procs[pid].pc);
  }

  lemma RingsEvolve(t: Tables, u: Tables, id: Uuid, v: PersistedVersion)
    requires Evolves(t, u)
    ensures |Chain(t.versions, id)| <= |Chain(u.versions, id)|
    ensures v in Chain(t.versions, id) ==>
              exists w :: w in Chain(u.versions, id) && w.id == v.id && w.createdAt == v.createdAt && BodyMoves(v.body, w.body)
  {
    var mine, theirs := IdsOf(t.versions, id), IdsOf(u.versions, id);
    forall k | k in mine
      ensures k in theirs
    {
      assert VersionMoves(t.versions[k], u.versions[k]);
    }
    CardinalitySubset(mine, theirs);
    OrderLength(t.versions, mine);
    OrderLength(u.versions, theirs);
    ChainContents(u.versions, id);
    ChainContents(t.versions, id);
    if v in Chain(t.versions, id) {
      var i :| 0 <= i < |Chain(t.versions, id)| && Chain(t.versions, id)[i] == v;
      assert VersionMoves(t.versions[v.id], u.versions[v.id]);
      var w := PersistedOf(v.id, u.versions[v.id]);
      assert w in Chain(u.versions, id);
    }
  }

  /** Between any two moments of a run no ring is lost: a version read in the
      earlier chain is in the later one with the same id and time, its inline
      bytes or its blob size, and moved at most to a fossil key. */
  lemma RingsNeverLost(env: Env, s: Sys, run: seq<Action>, i: nat, j: nat, id: Uuid, v: PersistedVersion)
    requires Initial(env, s) && i <= j <= |run|
    ensures var c, d := Chain(Exec(env, s, run[..i]).tables.versions, id), Chain(Exec(env, s, run[..j]).tables.versions, id);
            && |c| <= |d|
            && (v in c ==> exists w :: w in d && w.id == v.id && w.createdAt == v.createdAt && BodyMoves(v.body, w.body))
  {
    BetweenMoments(env, s, run, i, j);
    RingsEvolve(Exec(env, s, run[..i]).tables, Exec(env, s, run[..j]).tables, id, v);
  }

  lemma {:induction false} CardinalitySubset(a: set<Uuid>, b: set<Uuid>)
    requires a <= b
    ensures |a| <= |b|
  {
    assert b == a + (b - a);
  }

  lemma FixedExactlyWithHash(t: Tables, id: Uuid)
    requires WellFormed(t)
    ensures id in t.records ==> (t.records[id].contentHash.Some? <==> t.records[id].state == "fixed")
  {
    if id in t.records {
      StateLiteralRoundTrip(FromLiteral(t.records[id].state).value, t.records[id].state);
    }
  }

  /** A record found fixed stays fixed; its digest is there from that moment on, and never before. */
  lemma LifecycleMonotonic(env: Env, s: Sys, run: seq<Action>, i: nat, j: nat, id: Uuid)
    requires Initial(env, s) && i <= j <= |run|
    requires id in Exec(env, s, run[..i]).tables.records
    ensures var a, b := Exec(env, s, run[..i]).tables.records[id], Exec(env, s, run[..j]).tables.records;
            && id in b && b[id].kind == a.kind
            && (b[id].state == a.state || b[id].state == "fixed")
            && (b[id].contentHash.Some? <==> b[id].state == "fixed")
  {
    BetweenMoments(env, s, run, i, j);
    FixedExactlyWithHash(Exec(env, s, run[..j]).tables, id);
    assert RecordMoves(Exec(env, s, run[..i]).tables.records[id], Exec(env, s, run[..j]).tables.records[id]);
  }

  /** Racing creates of one id: once the record is there, every other request
      about to create it is refused and leaves the tables alone. */
  lemma LaterCreatesLose(env: Env, s: Sys, run: seq<Action>, i: nat, pid: nat, id: Uuid, mint: Mint)
    requires Initial(env, s) && i <= |run|
    requires id in Exec(env, s, run[..i]).tables.records
    requires var n := Exec(env, s, run); pid in n.procs && n.procs[pid].pc.SaveCreate? && n.procs[pid].pc.r.id == id
    ensures var n := Exec(env, s, run);
            && TablesAfter(n.tables, n.procs[pid].pc) == n.tables
            && PcAfter(env, n.tables, n.blobs, n.procs[pid].pc, mint) == Done(DbFailed(Surreal))
  {
    BetweenMoments(env, s, run, i, |run|);
    assert run[..|run|] == run;
    var n := Exec(env, s, run);
    assert PcOk(env, n.tables, n.blobs, n.procs[pid].pc);
  }
}
