/** When the clock moves on with every action and no two PUTs of one record
    overlap, chains are read in the order their versions were appended. */
module AppendOrder {
  import opened Basics
  import opened Digests
  import opened Core
  import opened Things
  import opened Convert
  import opened Tables
  import opened Load
  import opened Storage
  import opened Server
  import opened Integrity
  import opened Fossils

  /** No two requests are putting the same record. */
  ghost predicate PutsApart(procs: map<nat, Proc>) {
    forall p, q | p in procs && q in procs && p != q ::
      PutTarget(procs[p].pc).None? || PutTarget(procs[q].pc) != PutTarget(procs[p].pc)
  }

  ghost predicate NoPutOverlap(env: Env, s: Sys, run: seq<Action>) {
    forall k | 0 <= k <= |run| :: PutsApart(Exec(env, s, run[..k]).procs)
  }

  /** The clock reading of an action, if it takes one. */
  function ReadingOf(a: Action): Option<Time> {
    match a
    case Start(_, _, mint) => Some(mint.now)
    case Step(_, mint) => Some(mint.now)
    case Abort(_) => None
  }

  /** Every reading taken in the run is below `now`. */
  ghost predicate AllBelow(run: seq<Action>, now: Time) {
    forall i | 0 <= i < |run| :: ReadingOf(run[i]).Some? ==> ReadingOf(run[i]).value < now
  }

  /** Each action reads the clock later than every action before it. */
  ghost predicate ClockTicks(run: seq<Action>) {
    forall j | 0 <= j < |run| && ReadingOf(run[j]).Some? :: AllBelow(run[..j], ReadingOf(run[j]).value)
  }

  ghost predicate RowsBelow(vs: VersionTable, now: Time) {
    forall k | k in vs :: vs[k].createdAt < now
  }

  /** No two versions of one record share an instant. */
  ghost predicate TimesDistinct(vs: VersionTable) {
    forall a, b | a in vs && b in vs && vs[a].recordId == vs[b].recordId && vs[a].createdAt == vs[b].createdAt :: a == b
  }

  /** A request holds no clock reading from the future, and a PUT one that is
      later than every version of its record. */
  ghost predicate PcBelow(vs: VersionTable, pc: Pc, now: Time) {
    match pc
    case SaveSelect(_, _, at) => at < now
    case SaveCreate(_, _, at) => at < now
    case Appending(id, vid, row) =>
      row.createdAt < now && forall k | k in vs && vs[k].recordId == id :: vs[k].createdAt < row.createdAt
    case _ => true
  }

  ghost predicate Timely(s: Sys, now: Time) {
    && RowsBelow(s.tables.versions, now)
    && TimesDistinct(s.tables.versions)
    && forall p | p in s.procs :: PcBelow(s.tables.versions, s.procs[p].pc, now)
  }

  lemma TimelyLater(s: Sys, now: Time, later: Time)
    requires Timely(s, now) && now <= later
    ensures Timely(s, later)
  {
  }

  lemma CreateTimely(t: Tables, r: Record, creator: string, at: Time, who: Thing, now: Time)
    requires |r.versions| == 1 && at < now && CreateTx(t, RecordToRow(r, creator, at), who).Some?
    requires forall k | k in t.versions :: t.versions[k].recordId in t.records
    requires RowsBelow(t.versions, now) && TimesDistinct(t.versions)
    ensures var u := CreateTx(t, RecordToRow(r, creator, at), who).value; RowsBelow(u.versions, now) && TimesDistinct(u.versions)
  {
    var row := RecordToRow(r, creator, at);
    var u := CreateTx(t, row, who).value;
    WithVersionsAt(t.versions, row.versions, 0);
    assert forall k | k in u.versions :: k in t.versions || k == row.versions[0].id;
  }

  /** The tables of one step: rows stay below the clock and apart. */
  lemma TablesTimely(env: Env, t: Tables, blobs: Blobs, pc: Pc, now: Time)
    requires PcOk(env, t, blobs, pc) && PcBelow(t.versions, pc, now)
    requires forall k | k in t.versions :: t.versions[k].recordId in t.records
    requires RowsBelow(t.versions, now) && TimesDistinct(t.versions)
    requires pc.SaveCreate? ==> |pc.r.versions| == 1
    ensures RowsBelow(TablesAfter(t, pc).versions, now) && TimesDistinct(TablesAfter(t, pc).versions)
  {
    match pc {
      case SaveCreate(r, creator, at) =>
        var row := RecordToRow(r, creator, at);
        if CreateTx(t, row, ParseThing(creator).value).Some? {
          CreateTimely(t, r, creator, at, ParseThing(creator).value, now);
        }
      case Committing(id, h, at, vid, body) =>
      case _ =>
    }
  }

  /** The version ids of a chain, in the order it is read. */
  function Ids(c: seq<PersistedVersion>): (q: seq<Uuid>)
    ensures |q| == |c|
  {
    seq(|c|, i requires 0 <= i < |c| => c[i].id)
  }

  /** What a step of another request does to the rows of a PUT's record: nothing but rewriting bodies. */
  ghost predicate SameTimes(vs: VersionTable, us: VersionTable, id: Uuid) {
    forall k | k in us && us[k].recordId == id :: k in vs && vs[k].recordId == id && vs[k].createdAt == us[k].createdAt
  }

  lemma StepSameTimes(env: Env, t: Tables, blobs: Blobs, pc: Pc, id: Uuid)
    requires PcOk(env, t, blobs, pc) && id in t.records
    requires pc.Appending? ==> pc.id != id
    ensures SameTimes(t.versions, TablesAfter(t, pc).versions, id)
  {
    match pc {
      case SaveCreate(r, creator, at) =>
        var row, who := RecordToRow(r, creator, at), ParseThing(creator).value;
        if CreateTx(t, row, who).Some? {
          CreateFrames(t, row, who, id);
        }
      case _ =>
    }
  }

  lemma PcBelowKept(vs: VersionTable, us: VersionTable, pc: Pc, now: Time)
    requires PcBelow(vs, pc, now)
    requires pc.Appending? ==> SameTimes(vs, us, pc.id)
    ensures PcBelow(us, pc, now)
  {
  }

  /** Every POST in flight brings one version. */
  ghost predicate SingleVersions(procs: map<nat, Proc>) {
    forall p | p in procs :: (procs[p].pc.SaveSelect? || procs[p].pc.SaveCreate?) ==> |procs[p].pc.r.versions| == 1
  }

  /** A request that takes a step holds no reading later than this one. */
  lemma MoverBelow(env: Env, t: Tables, blobs: Blobs, pc: Pc, mint: Mint)
    requires PcBelow(t.versions, pc, mint.now) && RowsBelow(t.versions, mint.now)
    requires pc.Finding? ==> TablesAfter(t, pc) == t
    ensures PcBelow(TablesAfter(t, pc).versions, PcAfter(env, t, blobs, pc, mint), mint.now + 1)
  {
  }

  lemma WatcherBelow(env: Env, t: Tables, blobs: Blobs, mover: Pc, pc: Pc, now: Time)
    requires PcOk(env, t, blobs, mover) && PcOk(env, t, blobs, pc) && PcBelow(t.versions, pc, now)
    requires PutTarget(pc).None? || PutTarget(mover) != PutTarget(pc)
    ensures PcBelow(TablesAfter(t, mover).versions, pc, now + 1)
  {
    if pc.Appending? {
      StepSameTimes(env, t, blobs, mover, pc.id);
    }
    PcBelowKept(t.versions, TablesAfter(t, mover).versions, pc, now);
  }

  lemma StepTimely(env: Env, s: Sys, pid: nat, mint: Mint)
    requires Inv(env, s) && PutsApart(s.procs) && SingleVersions(s.procs) && pid in s.procs
    requires Timely(s, mint.now)
    ensures Timely(Apply(env, s, Step(pid, mint)), mint.now + 1)
  {
    var t, pc := s.tables, s.procs[pid].pc;
    assert PcOk(env, t, s.blobs, pc);
    TablesTimely(env, t, s.blobs, pc, mint.now);
    MoverBelow(env, t, s.blobs, pc, mint);
    forall p | p in s.procs && p != pid
      ensures PcBelow(TablesAfter(t, pc).versions, s.procs[p].pc, mint.now + 1)
    {
      assert PcOk(env, t, s.blobs, s.procs[p].pc);
      WatcherBelow(env, t, s.blobs, pc, s.procs[p].pc, mint.now);
    }
  }

  lemma ApplyTimely(env: Env, s: Sys, a: Action, at: Time, later: Time)
    requires Inv(env, s) && PutsApart(s.procs) && SingleVersions(s.procs)
    requires Timely(s, at)
    requires at <= later
    requires ReadingOf(a).Some? ==> ReadingOf(a).value == at < later
    ensures Timely(Apply(env, s, a), later)
  {
    if a.Step? && a.pid in s.procs {
      StepTimely(env, s, a.pid, a.mint);
      TimelyLater(Apply(env, s, a), at + 1, later);
    } else {
      TimelyLater(s, at, later);
    }
  }

  lemma StepSingle(env: Env, s: Sys, a: Action)
    requires SingleVersions(s.procs)
    ensures SingleVersions(Apply(env, s, a).procs)
  {
  }

  /** Data to start from: nothing in flight, no two versions of one record at one instant. */
  ghost predicate CalmStart(env: Env, s: Sys, start: Time) {
    Initial(env, s) && RowsBelow(s.tables.versions, start) && TimesDistinct(s.tables.versions)
  }

  /** The run's conditions: the clock ticks from `start` on and PUTs of one record stay apart. */
  ghost predicate Orderly(env: Env, s: Sys, run: seq<Action>, start: Time) {
    && CalmStart(env, s, start)
    && ClockTicks(run) && NoPutOverlap(env, s, run)
    && forall i | 0 <= i < |run| && ReadingOf(run[i]).Some? :: start <= ReadingOf(run[i]).value
  }

  lemma OrderlyPrefix(env: Env, s: Sys, run: seq<Action>, start: Time, i: nat)
    requires Orderly(env, s, run, start) && i <= |run|
    ensures Orderly(env, s, run[..i], start) && PutsApart(Exec(env, s, run[..i]).procs)
  {
    forall k | 0 <= k <= i
      ensures PutsApart(Exec(env, s, run[..i][..k]).procs)
    {
      assert run[..i][..k] == run[..k];
    }
    forall j | 0 <= j < i && ReadingOf(run[..i][j]).Some?
      ensures AllBelow(run[..i][..j], ReadingOf(run[..i][j]).value)
    {
      assert run[..i][..j] == run[..j];
    }
  }

  /** In every orderly run, whenever the clock stands above all readings taken, rows and requests are timely. */
  lemma {:induction false} AlwaysTimely(env: Env, s: Sys, run: seq<Action>, start: Time, now: Time)
    requires Orderly(env, s, run, start)
    requires AllBelow(run, now) && start <= now
    ensures Timely(Exec(env, s, run), now) && SingleVersions(Exec(env, s, run).procs)
    decreases |run|
  {
    if run == [] {
      TimelyLater(s, start, now);
    } else {
      var shorter, a := run[..|run| - 1], run[|run| - 1];
      var before := Exec(env, s, shorter);
      OrderlyPrefix(env, s, run, start, |run| - 1);
      StepBelow(env, s, run, start, now);
      var at := if ReadingOf(a).Some? then ReadingOf(a).value else now;
      AlwaysTimely(env, s, shorter, start, at);
      StepSingle(env, before, a);
      AlwaysIntact(env, s, shorter);
      ApplyTimely(env, before, a, at, now);
    }
  }

  /** The last action of a run reads the clock above all before it. */
  lemma StepBelow(env: Env, s: Sys, run: seq<Action>, start: Time, now: Time)
    requires run != [] && Orderly(env, s, run, start) && AllBelow(run, now) && start <= now
    ensures var a, shorter := run[|run| - 1], run[..|run| - 1];
            var at := if ReadingOf(a).Some? then ReadingOf(a).value else now;
            AllBelow(shorter, at) && start <= at <= now
  {
  }

  // ---- Chains grow at the end ----

  lemma SameForIds(t: Tables, u: Tables, id: Uuid)
    requires SameFor(t, u, id)
    ensures Ids(Chain(t.versions, id)) == Ids(Chain(u.versions, id))
  {
    ChainSame(t.versions, u.versions, id);
  }

  lemma RewriteIds(t: Tables, rid: Uuid, hash: string, now: Time, vid: Uuid, body: Body, id: Uuid)
    requires vid in t.versions
    ensures Ids(Chain(FixTx(t, rid, hash, now, vid, body).versions, id)) == Ids(Chain(t.versions, id))
  {
    ChainRewrite(t.versions, vid, body, id);
    assert FixTx(t, rid, hash, now, vid, body).versions == t.versions[vid := t.versions[vid].(body := body)];
  }

  lemma AppendIds(t: Tables, vid: Uuid, row: VersionRow, id: Uuid)
    requires AppendTx(t, vid, row).Some?
    requires forall k | k in t.versions && t.versions[k].recordId == row.recordId :: t.versions[k].createdAt < row.createdAt
    ensures Ids(Chain(AppendTx(t, vid, row).value.versions, id)) ==
            Ids(Chain(t.versions, id)) + (if id == row.recordId then [vid] else [])
  {
    if id == row.recordId {
      assert ComesLast(t.versions, vid, row);
      ChainAppend(t.versions, vid, row);
    } else {
      AppendFrames(t, vid, row, id);
      SameForIds(t, AppendTx(t, vid, row).value, id);
    }
  }

  /** The version a step appends to the chain of `id`, if it does. */
  function Appended(t: Tables, pc: Pc, id: Uuid): seq<Uuid> {
    if pc.Appending? && pc.row.recordId == id && pc.vid !in t.versions then [pc.vid] else []
  }

  lemma StepIds(env: Env, t: Tables, blobs: Blobs, pc: Pc, now: Time, id: Uuid)
    requires PcOk(env, t, blobs, pc) && PcBelow(t.versions, pc, now) && id in t.records
    ensures Ids(Chain(TablesAfter(t, pc).versions, id)) == Ids(Chain(t.versions, id)) + Appended(t, pc, id)
  {
    match pc {
      case SaveCreate(r, creator, at) =>
        var row, who := RecordToRow(r, creator, at), ParseThing(creator).value;
        if CreateTx(t, row, who).Some? {
          CreateFrames(t, row, who, id);
          SameForIds(t, CreateTx(t, row, who).value, id);
        }
      case Appending(_, vid, row) =>
        if AppendTx(t, vid, row).Some? {
          AppendIds(t, vid, row, id);
        }
      case Committing(rid, h, at, vid, body) =>
        RewriteIds(t, rid, HexOf(h), at, vid, body, id);
      case _ =>
    }
  }

  /** The version an action appends to the chain of `id`, if it does. */
  function LogStep(s: Sys, a: Action, id: Uuid): seq<Uuid> {
    if a.Step? && a.pid in s.procs then Appended(s.tables, s.procs[a.pid].pc, id) else []
  }

  /** What each action of a run appends to the chain of `id`. */
  function Logs(env: Env, s: Sys, run: seq<Action>, id: Uuid): seq<seq<Uuid>> {
    seq(|run|, k requires 0 <= k < |run| => LogStep(Exec(env, s, run[..k]), run[k], id))
  }

  /** The parts from `i` up to `j`, one after the other. */
  function Joined(parts: seq<seq<Uuid>>, i: nat, j: nat): seq<Uuid>
    requires i <= j <= |parts|
    decreases j
  {
    if i == j then [] else Joined(parts, i, j - 1) + parts[j - 1]
  }

  /** The versions a run appends to record `id` by its actions from `i` up to
      `j`, in the order their transactions commit. */
  function CommitLog(env: Env, s: Sys, run: seq<Action>, i: nat, j: nat, id: Uuid): seq<Uuid>
    requires i <= j <= |run|
  {
    Joined(Logs(env, s, run, id), i, j)
  }

  lemma ApplyIds(env: Env, s: Sys, pid: nat, mint: Mint, id: Uuid)
    requires Inv(env, s) && Timely(s, mint.now) && pid in s.procs && id in s.tables.records
    ensures Ids(Chain(Apply(env, s, Step(pid, mint)).tables.versions, id)) ==
            Ids(Chain(s.tables.versions, id)) + Appended(s.tables, s.procs[pid].pc, id)
  {
    assert PcOk(env, s.tables, s.blobs, s.procs[pid].pc);
    assert PcBelow(s.tables.versions, s.procs[pid].pc, mint.now);
    StepIds(env, s.tables, s.blobs, s.procs[pid].pc, mint.now, id);
  }

  /** One action adds to the chain of `id` what it appends, at the end. */
  lemma ActionIds(env: Env, s: Sys, a: Action, id: Uuid)
    requires Inv(env, s) && id in s.tables.records
    requires a.Step? ==> Timely(s, a.mint.now)
    ensures Ids(Chain(Apply(env, s, a).tables.versions, id)) == Ids(Chain(s.tables.versions, id)) + LogStep(s, a, id)
  {
    if a.Step? && a.pid in s.procs {
      ApplyIds(env, s, a.pid, a.mint, id);
    }
  }

  /** The version ids of record `id` as read at moment `k` of the run. */
  function IdsAt(env: Env, s: Sys, run: seq<Action>, k: nat, id: Uuid): seq<Uuid>
    requires k <= |run|
  {
    Ids(Chain(Exec(env, s, run[..k]).tables.versions, id))
  }

  /** At moment `k` of an orderly run the clock of the next step stands above everything. */
  lemma TimelyAt(env: Env, s: Sys, run: seq<Action>, start: Time, k: nat)
    requires Orderly(env, s, run, start) && k < |run|
    ensures Inv(env, Exec(env, s, run[..k]))
    ensures run[k].Step? ==> Timely(Exec(env, s, run[..k]), run[k].mint.now)
  {
    AlwaysIntact(env, s, run[..k]);
    if run[k].Step? {
      OrderlyPrefix(env, s, run, start, k);
      assert ReadingOf(run[k]) == Some(run[k].mint.now);
      AlwaysTimely(env, s, run[..k], start, run[k].mint.now);
    }
  }

  /** Action `k` of the run adds to the chain of `id` what it appends, at the end. */
  ghost predicate AddsAt(env: Env, s: Sys, run: seq<Action>, k: nat, id: Uuid)
    requires k < |run|
  {
    IdsAt(env, s, run, k + 1, id) == IdsAt(env, s, run, k, id) + LogStep(Exec(env, s, run[..k]), run[k], id)
  }

  lemma AlwaysAdds(env: Env, s: Sys, run: seq<Action>, start: Time, k: nat, id: Uuid)
    requires Orderly(env, s, run, start) && k < |run| && id in Exec(env, s, run[..k]).tables.records
    ensures AddsAt(env, s, run, k, id)
  {
    TimelyAt(env, s, run, start, k);
    ExecNext(env, s, run, k);
    ActionIds(env, Exec(env, s, run[..k]), run[k], id);
  }

  /** Lists that grow by one part at a time grow by the parts joined. */
  lemma {:induction false} Telescopes(lists: seq<seq<Uuid>>, parts: seq<seq<Uuid>>, i: nat, j: nat)
    requires |lists| == |parts| + 1 && i <= j <= |parts|
    requires forall k | i <= k < j :: lists[k + 1] == lists[k] + parts[k]
    ensures lists[j] == lists[i] + Joined(parts, i, j)
    decreases j
  {
    if j > i {
      Telescopes(lists, parts, i, j - 1);
      assert lists[j - 1 + 1] == lists[j - 1] + parts[j - 1];
    }
  }

  lemma JoinsUp(env: Env, s: Sys, run: seq<Action>, i: nat, j: nat, id: Uuid)
    requires i <= j <= |run| && forall k | i <= k < j :: AddsAt(env, s, run, k, id)
    ensures IdsAt(env, s, run, j, id) == IdsAt(env, s, run, i, id) + CommitLog(env, s, run, i, j, id)
  {
    var lists := seq(|run| + 1, k requires 0 <= k <= |run| => IdsAt(env, s, run, k, id));
    forall k | i <= k < j
      ensures lists[k + 1] == lists[k] + Logs(env, s, run, id)[k]
    {
      assert AddsAt(env, s, run, k, id);
    }
    Telescopes(lists, Logs(env, s, run, id), i, j);
  }

  lemma AddsFrom(env: Env, s: Sys, run: seq<Action>, start: Time, i: nat, k: nat, id: Uuid)
    requires Orderly(env, s, run, start) && i <= k < |run| && id in Exec(env, s, run[..i]).tables.records
    ensures AddsAt(env, s, run, k, id)
  {
    BetweenMoments(env, s, run, i, k);
    AlwaysAdds(env, s, run, start, k, id);
  }

  /** In every orderly run a chain is read as it was at any earlier moment,
      followed by the versions appended since in commit order. */
  lemma ReadsFollowCommits(env: Env, s: Sys, run: seq<Action>, start: Time, i: nat, j: nat, id: Uuid)
    requires Orderly(env, s, run, start) && i <= j <= |run|
    requires id in Exec(env, s, run[..i]).tables.records
    ensures IdsAt(env, s, run, j, id) == IdsAt(env, s, run, i, id) + CommitLog(env, s, run, i, j, id)
  {
    forall k | i <= k < j
      ensures AddsAt(env, s, run, k, id)
    {
      AddsFrom(env, s, run, start, i, k, id);
    }
    JoinsUp(env, s, run, i, j, id);
  }

  /** In every orderly run no two versions of a record share an instant, so
      any listing by time alone is the chain as read. */
  lemma TimesAloneDecide(env: Env, s: Sys, run: seq<Action>, start: Time, id: Uuid, q: seq<Uuid>)
    requires Orderly(env, s, run, start)
    requires var vs := Exec(env, s, run).tables.versions;
             && (forall k :: k in q <==> k in IdsOf(vs, id))
             && (forall i, j | 0 <= i < j < |q| :: q[i] in vs && q[j] in vs && vs[q[i]].createdAt <= vs[q[j]].createdAt)
             && (forall i, j | 0 <= i < j < |q| :: q[i] != q[j])
    ensures q == Ids(Chain(Exec(env, s, run).tables.versions, id))
  {
    var vs := Exec(env, s, run).tables.versions;
    var now := Above(run, start);
    AlwaysTimely(env, s, run, start, now);
    TimesDecideOrder(vs, IdsOf(vs, id), q);
  }

  /** Some instant after every reading of a run. */
  lemma {:induction false} Above(run: seq<Action>, start: Time) returns (now: Time)
    ensures AllBelow(run, now) && start <= now
  {
    now := start;
    if run != [] {
      now := Above(run[..|run| - 1], start);
      if ReadingOf(run[|run| - 1]).Some? && now <= ReadingOf(run[|run| - 1]).value {
        now := ReadingOf(run[|run| - 1]).value + 1;
      }
    }
  }
}
