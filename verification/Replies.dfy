/** What the other requests that succeed are answered, in every interleaving:
    a POST and a PUT with what is stored from then on, a GET with the record
    as it stood at three moments of its own. */
module Replies {
  import opened Basics
  import opened Core
  import opened Things
  import opened Convert
  import opened Tables
  import opened Load
  import opened Storage
  import opened Server
  import opened Integrity
  import opened Refinement

  /** A request that has been answered keeps its answer, and no other request takes its place. */
  lemma {:induction false} AnswersStand(env: Env, s: Sys, run: seq<Action>, pid: nat)
    requires pid in s.procs
    ensures pid in Exec(env, s, run).procs && Exec(env, s, run).procs[pid].req == s.procs[pid].req
    ensures s.procs[pid].pc.Done? ==> Exec(env, s, run).procs[pid] == s.procs[pid]
    decreases |run|
  {
    if run != [] {
      AnswersStand(env, s, run[..|run| - 1], pid);
    }
  }

  // ---- PUT and POST ----

  /** Version `k` of record `id` is stored and holds `body`, moved at most to a fossil key. */
  ghost predicate Holds(t: Tables, id: Uuid, k: Uuid, body: Body) {
    k in t.versions && t.versions[k].recordId == id && BodyMoves(body, t.versions[k].body)
  }

  /** Version `k` is among `vs` and shows `body`, moved at most to a fossil key. */
  ghost predicate Shows(vs: seq<PersistedVersion>, k: Uuid, body: Body) {
    exists v :: v in vs && v.id == k && BodyMoves(body, v.body)
  }

  /** The body `body` was appended to `id`, and a read that has come to the chain has seen it there. */
  ghost predicate AppendedAndSeen(t: Tables, id: Uuid, body: Body, reading: Reading) {
    exists k :: Holds(t, id, k, body) && (reading.ReadEdge? ==> Shows(reading.versions, k, body))
  }

  ghost predicate AppendedAndShown(t: Tables, id: Uuid, body: Body, row: PersistedRow) {
    row.record.id == id && exists k :: Holds(t, id, k, body) && Shows(row.versions, k, body)
  }

  /** Where a PUT can stand. */
  ghost predicate PutStands(env: Env, t: Tables, pc: Pc, id: Uuid, input: BodyInput) {
    match pc
    case Finding(rid, reading, next) =>
      && rid == id
      && (match next
          case CheckPut(sent) => sent == input
          case Reply => IntoBody(env, input).Some? && AppendedAndSeen(t, id, IntoBody(env, input).value, reading)
          case CheckFix(_) => false)
    case Appending(rid, _, row) => rid == id && row.recordId == id && IntoBody(env, input) == Some(row.body)
    case Done(Shown(row)) => IntoBody(env, input).Some? && AppendedAndShown(t, id, IntoBody(env, input).value, row)
    case Done(_) => true
    case _ => false
  }

  /** The record a POST makes, and the creator it names, are what it asked for. */
  predicate Asked(env: Env, r: Record, creator: string, kind: string, input: BodyInput, sub: Option<string>) {
    && KindToString(r.kind) == kind && creator == "creo_user:" + Who(sub)
    && |r.versions| == 1 && IntoBody(env, input) == Some(r.versions[0].body)
  }

  /** Record `id` has an edge, and it names the user of `sub`. */
  ghost predicate Credited(t: Tables, id: Uuid, sub: Option<string>) {
    EdgeOf(t.createdBy, id).Some? && EdgeOf(t.createdBy, id).value.creator == Thing("creo_user", Who(sub))
  }

  /** The record shown is stored: of that kind, under that creator, with that one version. */
  ghost predicate CreatedAndStored(t: Tables, kind: string, body: Body, sub: Option<string>, row: PersistedRow) {
    && row.record.id in t.records && t.records[row.record.id].kind == kind && row.record.kind == kind
    && row.attribution.creator == "creo_user:" + Who(sub) && Credited(t, row.record.id, sub)
    && |row.versions| == 1 && row.versions[0].body == body
    && Holds(t, row.record.id, row.versions[0].id, body)
  }

  /** Where a POST can stand. */
  ghost predicate PostStands(env: Env, t: Tables, pc: Pc, kind: string, input: BodyInput, sub: Option<string>) {
    match pc
    case SaveSelect(r, creator, _) => Asked(env, r, creator, kind, input, sub)
    case SaveCreate(r, creator, _) => Asked(env, r, creator, kind, input, sub)
    case Done(Created(row)) => IntoBody(env, input).Some? && CreatedAndStored(t, kind, IntoBody(env, input).value, sub, row)
    case Done(_) => true
    case _ => false
  }

  ghost predicate Stands(env: Env, t: Tables, p: Proc) {
    match p.req
    case PutRecord(id, input) => PutStands(env, t, p.pc, id, input)
    case PostRecord(kind, input, sub) => PostStands(env, t, p.pc, kind, input, sub)
    case _ => true
  }

  ghost predicate AllStand(env: Env, s: Sys) {
    forall p | p in s.procs :: Stands(env, s.tables, s.procs[p])
  }

  lemma HoldsStays(t: Tables, u: Tables, id: Uuid, k: Uuid, body: Body)
    requires Holds(t, id, k, body) && Evolves(t, u)
    ensures Holds(u, id, k, body)
  {
    assert VersionMoves(t.versions[k], u.versions[k]);
  }

  lemma StandsStays(env: Env, t: Tables, u: Tables, p: Proc)
    requires Stands(env, t, p) && Evolves(t, u)
    ensures Stands(env, u, p)
  {
    match p.req {
      case PutRecord(id, input) =>
        if p.pc.Finding? && p.pc.next.Reply? {
          var body := IntoBody(env, input).value;
          var k :| Holds(t, id, k, body) && (p.pc.reading.ReadEdge? ==> Shows(p.pc.reading.versions, k, body));
          HoldsStays(t, u, id, k, body);
        }
        if p.pc.Done? && p.pc.resp.Shown? {
          var body := IntoBody(env, input).value;
          var k :| Holds(t, id, k, body) && Shows(p.pc.resp.row.versions, k, body);
          HoldsStays(t, u, id, k, body);
        }
      case PostRecord(kind, input, sub) =>
        if p.pc.Done? && p.pc.resp.Created? {
          var row := p.pc.resp.row;
          HoldsStays(t, u, row.record.id, row.versions[0].id, row.versions[0].body);
          assert RecordMoves(t.records[row.record.id], u.records[row.record.id]);
        }
      case _ =>
    }
  }

  /** The chain read for a record shows every version it holds. */
  lemma ChainShows(t: Tables, id: Uuid, k: Uuid, body: Body)
    requires Holds(t, id, k, body)
    ensures Shows(Chain(t.versions, id), k, body)
  {
    ChainContents(t.versions, id);
    assert PersistedOf(k, t.versions[k]) in Chain(t.versions, id);
  }

  /** The row shown for a loaded record shows the versions it was loaded with. */
  lemma RowShows(row: PersistedRecord, versions: seq<PersistedVersion>, e: Option<CreatedBy>, l: Loaded, k: Uuid, body: Body)
    requires Join(row, versions, e) == Ok(l) && Shows(versions, k, body)
    ensures Shows(RowOf(l.record, l.attribution).versions, k, body)
  {
    var v :| v in versions && v.id == k && BodyMoves(body, v.body);
    var i :| 0 <= i < |versions| && versions[i] == v;
    var shown := RowOf(l.record, l.attribution).versions;
    assert shown[i].id == k && shown[i].body == v.body;
  }

  lemma ReplyStands(env: Env, t: Tables, blobs: Blobs, id: Uuid, reading: Reading, input: BodyInput, mint: Mint)
    requires ReadingOk(t, id, reading)
    requires PutStands(env, t, Finding(id, reading, Reply), id, input)
    ensures PutStands(env, t, PcAfter(env, t, blobs, Finding(id, reading, Reply), mint), id, input)
  {
    var body := IntoBody(env, input).value;
    var k :| Holds(t, id, k, body) && (reading.ReadEdge? ==> Shows(reading.versions, k, body));
    match reading {
      case ReadRecord =>
      case ReadVersions(row) => ChainShows(t, id, k, body);
      case ReadEdge(row, versions) =>
        var p := ReadStep(t, id, reading);
        if p.Found? {
          RowShows(row, versions, EdgeOf(t.createdBy, id), p.l, k, body);
        }
    }
  }

  lemma PutStep(env: Env, t: Tables, blobs: Blobs, pc: Pc, mint: Mint, id: Uuid, input: BodyInput)
    requires PcOk(env, t, blobs, pc) && PutStands(env, t, pc, id, input)
    ensures PutStands(env, TablesAfter(t, pc), PcAfter(env, t, blobs, pc, mint), id, input)
  {
    match pc {
      case Finding(_, reading, Reply) => ReplyStands(env, t, blobs, id, reading, input, mint);
      case Appending(_, vid, row) =>
        if AppendTx(t, vid, row).Some? {
          assert Holds(AppendTx(t, vid, row).value, id, vid, row.body);
        }
      case _ =>
    }
  }

  /** The transaction of a POST leaves its record credited and with its version. */
  lemma CreateStores(t: Tables, r: Record, creator: string, now: Time, who: Thing)
    requires WellFormed(t) && |r.versions| == 1 && CreateTx(t, RecordToRow(r, creator, now), who).Some?
    ensures var u := CreateTx(t, RecordToRow(r, creator, now), who).value;
            && r.id in u.records && u.records[r.id].kind == KindToString(r.kind)
            && EdgeOf(u.createdBy, r.id) == Some(CreatedBy(who, r.id, now))
            && Holds(u, r.id, r.versions[0].id, r.versions[0].body)
  {
    var row := RecordToRow(r, creator, now);
    CreatedFind(t, row, who);
    WithVersionsAt(t.versions, row.versions, 0);
  }

  lemma PostStep(env: Env, t: Tables, blobs: Blobs, pc: Pc, mint: Mint, kind: string, input: BodyInput, sub: Option<string>)
    requires WellFormed(t) && PcOk(env, t, blobs, pc) && PostStands(env, t, pc, kind, input, sub)
    ensures PostStands(env, TablesAfter(t, pc), PcAfter(env, t, blobs, pc, mint), kind, input, sub)
  {
    if pc.SaveCreate? {
      var who := Thing("creo_user", Who(sub));
      assert ParseThing(pc.creator) == Ok(who) by { UserTag(Who(sub)); }
      if CreateTx(t, RecordToRow(pc.r, pc.creator, pc.now), who).Some? {
        CreateStores(t, pc.r, pc.creator, pc.now, who);
      }
    }
  }

  lemma BeginStands(env: Env, t: Tables, req: Request, mint: Mint)
    ensures Stands(env, t, Proc(req, Begin(env, req, mint)))
  {
    if req.PostRecord? {
      ClaimsParse(req.sub);
    }
  }

  lemma MoverStands(env: Env, t: Tables, blobs: Blobs, p: Proc, mint: Mint)
    requires WellFormed(t) && Stands(env, t, p) && PcOk(env, t, blobs, p.pc)
    ensures Stands(env, TablesAfter(t, p.pc), p.(pc := PcAfter(env, t, blobs, p.pc, mint)))
  {
    match p.req {
      case PutRecord(id, input) => PutStep(env, t, blobs, p.pc, mint, id, input);
      case PostRecord(kind, input, sub) => PostStep(env, t, blobs, p.pc, mint, kind, input, sub);
      case _ =>
    }
  }

  lemma ApplyStands(env: Env, s: Sys, a: Action)
    requires WellFormed(s.tables) && AllStand(env, s) && Evolves(s.tables, Apply(env, s, a).tables)
    requires forall p | p in s.procs :: PcOk(env, s.tables, s.blobs, s.procs[p].pc)
    ensures AllStand(env, Apply(env, s, a))
  {
    var n := Apply(env, s, a);
    forall p | p in n.procs
      ensures Stands(env, n.tables, n.procs[p])
    {
      if a.Step? && p == a.pid && p in s.procs {
        MoverStands(env, s.tables, s.blobs, s.procs[p], a.mint);
      } else if p in s.procs {
        StandsStays(env, s.tables, n.tables, s.procs[p]);
      } else {
        BeginStands(env, s.tables, a.req, a.mint);
      }
    }
  }

  lemma {:induction false} AlwaysStands(env: Env, s: Sys, run: seq<Action>)
    requires Initial(env, s)
    ensures AllStand(env, Exec(env, s, run))
    decreases |run|
  {
    if run != [] {
      AlwaysStands(env, s, run[..|run| - 1]);
      AlwaysIntact(env, s, run[..|run| - 1]);
      ApplyOk(env, Exec(env, s, run[..|run| - 1]), run[|run| - 1]);
      ApplyStands(env, Exec(env, s, run[..|run| - 1]), run[|run| - 1]);
    }
  }

  /** What stands in one state is stored in every later one. */
  lemma PutStored(env: Env, n: Sys, u: Tables, pid: nat, id: Uuid, input: BodyInput, row: PersistedRow)
    requires AllStand(env, n) && Evolves(n.tables, u)
    requires pid in n.procs && n.procs[pid] == Proc(PutRecord(id, input), Done(Shown(row)))
    ensures exists body :: Means(env, input, body) && AppendedAndShown(u, id, body, row)
  {
    StandsStays(env, n.tables, u, n.procs[pid]);
    IntoBodyIff(env, input, IntoBody(env, input).value);
  }

  /** A PUT that was answered with a record sent a body that means something:
      the record it was shown has a version with that body, and so has the
      stored one at every moment from then on. */
  lemma PutAnswersTruly(env: Env, s: Sys, run: seq<Action>, i: nat, pid: nat, id: Uuid, input: BodyInput, row: PersistedRow)
    requires Initial(env, s) && i <= |run|
    requires pid in Exec(env, s, run[..i]).procs
    requires Exec(env, s, run[..i]).procs[pid] == Proc(PutRecord(id, input), Done(Shown(row)))
    ensures exists body :: Means(env, input, body) && AppendedAndShown(Exec(env, s, run).tables, id, body, row)
  {
    AlwaysStands(env, s, run[..i]);
    BetweenMoments(env, s, run, i, |run|);
    assert run[..|run|] == run;
    PutStored(env, Exec(env, s, run[..i]), Exec(env, s, run).tables, pid, id, input, row);
  }

  lemma PostStored(env: Env, n: Sys, u: Tables, pid: nat, kind: string, input: BodyInput, sub: Option<string>, row: PersistedRow)
    requires AllStand(env, n) && Evolves(n.tables, u)
    requires pid in n.procs && n.procs[pid] == Proc(PostRecord(kind, input, sub), Done(Created(row)))
    ensures exists body :: Means(env, input, body) && CreatedAndStored(u, kind, body, sub, row)
  {
    StandsStays(env, n.tables, u, n.procs[pid]);
    IntoBodyIff(env, input, IntoBody(env, input).value);
  }

  /** A POST that was answered with a record sent a body that means something:
      at every later moment there is a record under the id it was told, of the
      kind, with the version and credited to the user it asked for. */
  lemma PostAnswersTruly(env: Env, s: Sys, run: seq<Action>, i: nat, pid: nat,
                         kind: string, input: BodyInput, sub: Option<string>, row: PersistedRow)
    requires Initial(env, s) && i <= |run|
    requires pid in Exec(env, s, run[..i]).procs
    requires Exec(env, s, run[..i]).procs[pid] == Proc(PostRecord(kind, input, sub), Done(Created(row)))
    ensures exists body :: Means(env, input, body) && CreatedAndStored(Exec(env, s, run).tables, kind, body, sub, row)
  {
    AlwaysStands(env, s, run[..i]);
    BetweenMoments(env, s, run, i, |run|);
    assert run[..|run|] == run;
    PostStored(env, Exec(env, s, run[..i]), Exec(env, s, run).tables, pid, kind, input, sub, row);
  }

  /** In well-formed tables a credited record has that one edge; unless the
      user has a backtick, every find shows that user and the user's list holds the record. */
  lemma CreditCounts(t: Tables, id: Uuid, sub: Option<string>)
    requires WellFormed(t) && id in t.records && Credited(t, id, sub)
    ensures forall e | e in t.createdBy && e.record == id :: e.creator == Thing("creo_user", Who(sub))
    ensures '`' !in Who(sub) ==>
              && Find(t, id).Ok? && Find(t, id).value.Some? && Find(t, id).value.value.attribution.creator == "creo_user:" + Who(sub)
              && ListResult(t, "creo_user:" + Who(sub)).Ok? && InList(ListResult(t, "creo_user:" + Who(sub)).value, id)
  {
    var edge := EdgeOf(t.createdBy, id).value;
    forall e | e in t.createdBy && e.record == id
      ensures e == edge
    {
      var i :| 0 <= i < |t.createdBy| && t.createdBy[i] == e;
      var j :| 0 <= j < |t.createdBy| && t.createdBy[j] == edge;
      assert i == j;
    }
    FindSucceeds(t, id);
    AttributionIsEdge(t, edge, Find(t, id).value.value);
    UserTag(Who(sub));
    ListIsExact(t, "creo_user:" + Who(sub));
  }

  /** The record of a POST that was answered is credited to the subject of its
      token at every later moment: by its only edge, by every find and in that user's list. */
  lemma PostIsCredited(env: Env, s: Sys, run: seq<Action>, i: nat, pid: nat,
                       kind: string, input: BodyInput, sub: Option<string>, row: PersistedRow)
    requires Initial(env, s) && i <= |run|
    requires pid in Exec(env, s, run[..i]).procs
    requires Exec(env, s, run[..i]).procs[pid] == Proc(PostRecord(kind, input, sub), Done(Created(row)))
    ensures row.attribution.creator == "creo_user:" + Who(sub)
    ensures var t, id := Exec(env, s, run).tables, row.record.id;
            && (forall e | e in t.createdBy && e.record == id :: e.creator == Thing("creo_user", Who(sub)))
            && ('`' !in Who(sub) ==>
                  && Find(t, id).Ok? && Find(t, id).value.Some?
                  && Find(t, id).value.value.attribution.creator == "creo_user:" + Who(sub)
                  && ListResult(t, "creo_user:" + Who(sub)).Ok? && InList(ListResult(t, "creo_user:" + Who(sub)).value, id))
  {
    PostAnswersTruly(env, s, run, i, pid, kind, input, sub, row);
    AlwaysIntact(env, s, run);
    CreditCounts(Exec(env, s, run).tables, row.record.id, sub);
  }

  // ---- GET ----

  /** The record row read at moment `i` of the run. */
  ghost predicate RowAt(env: Env, s: Sys, run: seq<Action>, i: nat, id: Uuid, row: PersistedRecord)
    requires i <= |run|
  {
    var t := Exec(env, s, run[..i]).tables;
    id in t.records && IntoPersisted(t.records[id], id) == Ok(row)
  }

  function ChainAt(env: Env, s: Sys, run: seq<Action>, j: nat, id: Uuid): seq<PersistedVersion>
    requires j <= |run|
  {
    Chain(Exec(env, s, run[..j]).tables.versions, id)
  }

  function EdgeAt(env: Env, s: Sys, run: seq<Action>, k: nat, id: Uuid): Option<CreatedBy>
    requires k <= |run|
  {
    EdgeOf(Exec(env, s, run[..k]).tables.createdBy, id)
  }

  /** The row `row` is put together from three moments, one after the other. */
  ghost predicate Composed(env: Env, s: Sys, run: seq<Action>, id: Uuid, row: PersistedRow, i: nat, j: nat, k: nat)
    requires i <= j <= k <= |run|
  {
    exists r: PersistedRecord, l: Loaded ::
      RowAt(env, s, run, i, id, r) && Join(r, ChainAt(env, s, run, j, id), EdgeAt(env, s, run, k, id)) == Ok(l)
      && row == RowOf(l.record, l.attribution)
  }

  /** The row was read at some moment, and the chain at a later one. */
  ghost predicate ReadBefore(env: Env, s: Sys, run: seq<Action>, id: Uuid, row: PersistedRecord, versions: seq<PersistedVersion>) {
    exists i: nat, j: nat :: i <= j <= |run| && RowAt(env, s, run, i, id, row) && versions == ChainAt(env, s, run, j, id)
  }

  ghost predicate ShownOf(env: Env, s: Sys, run: seq<Action>, id: Uuid, row: PersistedRow) {
    exists i: nat, j: nat, k: nat :: i <= j <= k <= |run| && Composed(env, s, run, id, row, i, j, k)
  }

  /** Where a GET can stand, told by the moments of the run. */
  ghost predicate GetStands(env: Env, s: Sys, run: seq<Action>, pc: Pc, id: Uuid) {
    match pc
    case Finding(rid, ReadRecord, Reply) => rid == id
    case Finding(rid, ReadVersions(row), Reply) =>
      rid == id && exists i: nat :: i <= |run| && RowAt(env, s, run, i, id, row)
    case Finding(rid, ReadEdge(row, versions), Reply) => rid == id && ReadBefore(env, s, run, id, row, versions)
    case Done(Shown(row)) => ShownOf(env, s, run, id, row)
    case Done(_) => true
    case _ => false
  }

  lemma ReadBeforeLonger(env: Env, s: Sys, run: seq<Action>, id: Uuid, row: PersistedRecord, versions: seq<PersistedVersion>)
    requires run != [] && ReadBefore(env, s, run[..|run| - 1], id, row, versions)
    ensures ReadBefore(env, s, run, id, row, versions)
  {
    var shorter := run[..|run| - 1];
    var i: nat, j: nat :| i <= j <= |shorter| && RowAt(env, s, shorter, i, id, row) && versions == ChainAt(env, s, shorter, j, id);
    assert shorter[..i] == run[..i] && shorter[..j] == run[..j];
    assert RowAt(env, s, run, i, id, row) && versions == ChainAt(env, s, run, j, id);
  }

  lemma ComposedLonger(env: Env, s: Sys, run: seq<Action>, id: Uuid, row: PersistedRow, i: nat, j: nat, k: nat)
    requires run != [] && i <= j <= k <= |run| - 1 && Composed(env, s, run[..|run| - 1], id, row, i, j, k)
    ensures Composed(env, s, run, id, row, i, j, k)
  {
    var shorter := run[..|run| - 1];
    assert shorter[..i] == run[..i] && shorter[..j] == run[..j] && shorter[..k] == run[..k];
    var r: PersistedRecord, l: Loaded :|
      RowAt(env, s, shorter, i, id, r) && Join(r, ChainAt(env, s, shorter, j, id), EdgeAt(env, s, shorter, k, id)) == Ok(l)
      && row == RowOf(l.record, l.attribution);
    assert RowAt(env, s, run, i, id, r) && Join(r, ChainAt(env, s, run, j, id), EdgeAt(env, s, run, k, id)) == Ok(l);
  }

  lemma ShownOfLonger(env: Env, s: Sys, run: seq<Action>, id: Uuid, row: PersistedRow)
    requires run != [] && ShownOf(env, s, run[..|run| - 1], id, row)
    ensures ShownOf(env, s, run, id, row)
  {
    var shorter := run[..|run| - 1];
    var i: nat, j: nat, k: nat :| i <= j <= k <= |shorter| && Composed(env, s, shorter, id, row, i, j, k);
    ComposedLonger(env, s, run, id, row, i, j, k);
  }

  /** A longer run has the same earlier moments. */
  lemma GetStandsLonger(env: Env, s: Sys, run: seq<Action>, pc: Pc, id: Uuid)
    requires run != [] && GetStands(env, s, run[..|run| - 1], pc, id)
    ensures GetStands(env, s, run, pc, id)
  {
    match pc {
      case Finding(_, ReadVersions(row), Reply) =>
        var i: nat :| i <= |run| - 1 && RowAt(env, s, run[..|run| - 1], i, id, row);
        assert run[..|run| - 1][..i] == run[..i];
        assert RowAt(env, s, run, i, id, row);
      case Finding(_, ReadEdge(row, versions), Reply) => ReadBeforeLonger(env, s, run, id, row, versions);
      case Done(Shown(row)) => ShownOfLonger(env, s, run, id, row);
      case _ =>
    }
  }

  /** The three reads, each at the end of the run. */
  lemma GetReadsRow(env: Env, s: Sys, run: seq<Action>, id: Uuid, mint: Mint)
    ensures var n := Exec(env, s, run);
            GetStands(env, s, run, PcAfter(env, n.tables, n.blobs, Finding(id, ReadRecord, Reply), mint), id)
  {
    var t := Exec(env, s, run).tables;
    assert run[..|run|] == run;
    if id in t.records && IntoPersisted(t.records[id], id).Ok? {
      assert RowAt(env, s, run, |run|, id, IntoPersisted(t.records[id], id).value);
    }
  }

  lemma GetReadsChain(env: Env, s: Sys, run: seq<Action>, id: Uuid, row: PersistedRecord, mint: Mint)
    requires GetStands(env, s, run, Finding(id, ReadVersions(row), Reply), id)
    ensures var n := Exec(env, s, run);
            GetStands(env, s, run, PcAfter(env, n.tables, n.blobs, Finding(id, ReadVersions(row), Reply), mint), id)
  {
    assert run[..|run|] == run;
    var i: nat :| i <= |run| && RowAt(env, s, run, i, id, row);
    assert ReadBefore(env, s, run, id, row, ChainAt(env, s, run, |run|, id));
  }

  lemma LastReadAnswers(env: Env, t: Tables, blobs: Blobs, id: Uuid, row: PersistedRecord, versions: seq<PersistedVersion>, mint: Mint)
    ensures PcAfter(env, t, blobs, Finding(id, ReadEdge(row, versions), Reply), mint) ==
            match Join(row, versions, EdgeOf(t.createdBy, id))
            case Ok(l) => Done(Shown(RowOf(l.record, l.attribution)))
            case Err(e) => Done(DbFailed(e))
  {
  }

  lemma GetReadsEdge(env: Env, s: Sys, run: seq<Action>, id: Uuid, row: PersistedRecord, versions: seq<PersistedVersion>, mint: Mint)
    requires ReadBefore(env, s, run, id, row, versions)
    ensures var n := Exec(env, s, run);
            GetStands(env, s, run, PcAfter(env, n.tables, n.blobs, Finding(id, ReadEdge(row, versions), Reply), mint), id)
  {
    var n := Exec(env, s, run);
    var answer := Join(row, versions, EdgeOf(n.tables.createdBy, id));
    LastReadAnswers(env, n.tables, n.blobs, id, row, versions, mint);
    if answer.Ok? {
      LastRead(env, s, run, id, row, versions, answer.value);
    }
  }

  lemma LastRead(env: Env, s: Sys, run: seq<Action>, id: Uuid, row: PersistedRecord, versions: seq<PersistedVersion>, l: Loaded)
    requires ReadBefore(env, s, run, id, row, versions)
    requires Join(row, versions, EdgeOf(Exec(env, s, run).tables.createdBy, id)) == Ok(l)
    ensures ShownOf(env, s, run, id, RowOf(l.record, l.attribution))
  {
    assert run[..|run|] == run;
    var i: nat, j: nat :| i <= j <= |run| && RowAt(env, s, run, i, id, row) && versions == ChainAt(env, s, run, j, id);
    assert Join(row, ChainAt(env, s, run, j, id), EdgeAt(env, s, run, |run|, id)) == Ok(l);
    assert Composed(env, s, run, id, RowOf(l.record, l.attribution), i, j, |run|);
  }

  lemma GetStep(env: Env, s: Sys, run: seq<Action>, pc: Pc, id: Uuid, mint: Mint)
    requires GetStands(env, s, run, pc, id)
    ensures var n := Exec(env, s, run); GetStands(env, s, run, PcAfter(env, n.tables, n.blobs, pc, mint), id)
  {
    match pc {
      case Finding(_, reading, _) =>
        match reading {
          case ReadRecord => GetReadsRow(env, s, run, id, mint);
          case ReadVersions(row) => GetReadsChain(env, s, run, id, row, mint);
          case ReadEdge(row, versions) => GetReadsEdge(env, s, run, id, row, versions, mint);
        }
      case Done(_) =>
    }
  }

  lemma {:induction false} GetsStand(env: Env, s: Sys, run: seq<Action>, pid: nat)
    requires s.procs == map[]
    ensures var n := Exec(env, s, run);
            pid in n.procs && n.procs[pid].req.GetRecord? ==> GetStands(env, s, run, n.procs[pid].pc, n.procs[pid].req.id)
    decreases |run|
  {
    if run != [] {
      var shorter, a := run[..|run| - 1], run[|run| - 1];
      var before, n := Exec(env, s, shorter), Exec(env, s, run);
      GetsStand(env, s, shorter, pid);
      if pid in n.procs && n.procs[pid].req.GetRecord? {
        if pid in before.procs && a.Step? && a.pid == pid {
          GetStep(env, s, shorter, before.procs[pid].pc, before.procs[pid].req.id, a.mint);
        }
        GetStandsLonger(env, s, run, n.procs[pid].pc, n.procs[pid].req.id);
      }
    }
  }

  /** In every run a GET that is answered with a record shows its row of one
      moment, its chain of a later and its creator of a still later one: the
      chain may be younger than the state, by growth and moved keys only, and
      never older. */
  lemma GetShowsThreeMoments(env: Env, s: Sys, run: seq<Action>, pid: nat, id: Uuid, row: PersistedRow)
    requires Initial(env, s) && pid in Exec(env, s, run).procs
    requires Exec(env, s, run).procs[pid] == Proc(GetRecord(id), Done(Shown(row)))
    ensures exists i: nat, j: nat, k: nat :: i <= j <= k <= |run| && Composed(env, s, run, id, row, i, j, k)
              && Evolves(Exec(env, s, run[..i]).tables, Exec(env, s, run[..j]).tables)
  {
    GetsStand(env, s, run, pid);
    var i: nat, j: nat, k: nat :| i <= j <= k <= |run| && Composed(env, s, run, id, row, i, j, k);
    BetweenMoments(env, s, run, i, j);
  }
}
