/** Runs in which a PUT and a fix of the same record overlap. The PUT always
    reads the record while it is mutable. It may commit after the fix has: then
    the fixed record grows a version. Or it may commit after the fix has checked
    the payload and before the fix reads the record again: then the fix stamps
    a payload it never checked, or moves that payload's blob reference to the
    blob it did check. */
module Overlap {
  import opened Basics
  import opened Digests
  import opened Core
  import opened Things
  import opened Convert
  import opened Tables
  import opened Load
  import opened Storage
  import opened Server
  import opened Integrity
  import opened Fossils
  import opened Frozen
  import opened Alone

  const EDGE := CreatedBy(Thing("creo_user", "a"), 1, 0)
  const MINT := Mint(0, 11, 5)

  // ---- Tables of one record ----

  /** One record, mutable, with one version. */
  function Lone(first: Body): Tables {
    Tables(map[1 := RecordRow("mutable", "log", None, 0, 0)], map[10 := VersionRow(1, first, 0)], [EDGE], [])
  }

  /** The same record fixed under `h`. */
  function LoneFixed(first: Body, h: Digest): Tables {
    Tables(map[1 := RecordRow("fixed", "log", Some(HexOf(h)), 0, 5)], map[10 := VersionRow(1, first, 0)], [EDGE], [])
  }

  function LateRow(late: Body): VersionRow {
    VersionRow(1, late, 5)
  }

  /** The mutable record after the PUT has appended to it. */
  function Grown(first: Body, late: Body): Tables {
    Tables(map[1 := RecordRow("mutable", "log", None, 0, 5)], map[10 := VersionRow(1, first, 0), 11 := LateRow(late)], [EDGE], [])
  }

  lemma LoneChain(first: Body)
    ensures Chain(map[10 := VersionRow(1, first, 0)], 1) == [PersistedVersion(10, 1, first, 0)]
  {
    var vs: VersionTable := map[10 := VersionRow(1, first, 0)];
    assert IdsOf(vs, 1) == {10};
    OrderUnique(vs, {10}, [10]);
  }

  /** A late row lands after the only version there. */
  lemma GrownChain(first: Body, late: Body)
    ensures Chain(map[10 := VersionRow(1, first, 0), 11 := LateRow(late)], 1) ==
            [PersistedVersion(10, 1, first, 0), PersistedVersion(11, 1, late, 5)]
  {
    var vs: VersionTable := map[10 := VersionRow(1, first, 0)];
    LoneChain(first);
    ChainAppend(vs, 11, LateRow(late));
    assert vs[11 := LateRow(late)] == map[10 := VersionRow(1, first, 0), 11 := LateRow(late)];
  }

  function OneFound(state: State, hash: Option<Digest>, versions: seq<Version>): Loaded {
    Loaded(Record(state, 1, Log, hash, versions), AttributionOf(EDGE))
  }

  lemma LoneFinds(first: Body)
    ensures Find(Lone(first), 1) == Ok(Some(OneFound(Mutable, None, [Version(10, first)])))
  {
    LoneChain(first);
    assert VersionsFromPersisted(Chain(Lone(first).versions, 1)) == [Version(10, first)];
  }

  lemma LoneFixedFinds(first: Body, h: Digest)
    ensures Find(LoneFixed(first, h), 1) == Ok(Some(OneFound(Fixed, Some(h), [Version(10, first)])))
  {
    LoneChain(first);
    ParseOfDisplay(h);
    assert VersionsFromPersisted(Chain(LoneFixed(first, h).versions, 1)) == [Version(10, first)];
  }

  lemma GrownFinds(first: Body, late: Body)
    ensures Find(Grown(first, late), 1) == Ok(Some(OneFound(Mutable, None, [Version(10, first), Version(11, late)])))
  {
    GrownChain(first, late);
    assert VersionsFromPersisted(Chain(Grown(first, late).versions, 1)) == [Version(10, first), Version(11, late)];
  }

  // ---- The transactions of these runs ----

  lemma LoneCommits(first: Bytes, h: Digest)
    ensures FixTx(Lone(Inline(first)), 1, HexOf(h), 5, 10, Inline(first)) == LoneFixed(Inline(first), h)
  {
    var vs: VersionTable := map[10 := VersionRow(1, Inline(first), 0)];
    assert vs[10 := VersionRow(1, Inline(first), 0)] == vs;
  }

  lemma LoneGrows(first: Body, late: Body)
    ensures AppendTx(Lone(first), 11, LateRow(late)) == Some(Grown(first, late))
  {
    var vs: VersionTable := map[10 := VersionRow(1, first, 0)];
    var rows: map<Uuid, RecordRow> := map[1 := RecordRow("mutable", "log", None, 0, 0)];
    assert vs[11 := LateRow(late)] == map[10 := VersionRow(1, first, 0), 11 := LateRow(late)];
    assert rows[1 := RecordRow("mutable", "log", None, 0, 5)] == map[1 := RecordRow("mutable", "log", None, 0, 5)];
  }

  // ---- Pieces of runs ----

  const MINTS := [MINT, MINT, MINT]

  function Thrice(pid: nat): seq<Action> {
    Own(pid, MINTS)
  }

  lemma NoneLeft(env: Env, s: Sys, pid: nat)
    ensures Exec(env, s, Own(pid, MINTS[3..])) == s
  {
    assert Own(pid, MINTS[3..]) == [];
  }

  /** A request arrives and reads its record undisturbed. */
  lemma Arrives(env: Env, s: Sys, pid: nat, req: Request, next: Next, l: Loaded)
    requires pid !in s.procs && Begin(env, req, MINT) == Finding(1, ReadRecord, next)
    requires Find(s.tables, 1) == Ok(Some(l))
    ensures Exec(env, s, [Start(pid, req, MINT)] + Thrice(pid)) ==
            s.(procs := s.procs[pid := Proc(req, Resume(env, 1, l, next, MINT))])
  {
    var n := s.(procs := s.procs[pid := Proc(req, Finding(1, ReadRecord, next))]);
    ServedFrom(env, s, pid, req, MINT, MINTS);
    FindUndisturbed(env, n, pid, 1, next, MINTS, l);
    NoneLeft(env, With(n, pid, Resume(env, 1, l, next, MINT)), pid);
  }

  /** The PUT has read the mutable record and is about to append. */
  function PutReady(input: BodyInput, late: Body): Proc {
    Proc(PutRecord(1, input), Appending(1, 11, LateRow(late)))
  }

  function PutAnswering(input: BodyInput): Proc {
    Proc(PutRecord(1, input), Finding(1, ReadRecord, Reply))
  }

  function FixRequest(h: Digest): Request {
    FixRecord(1, HexOf(h))
  }

  function PutRun(input: BodyInput): seq<Action> {
    [Start(0, PutRecord(1, input), MINT)] + Thrice(0)
  }

  function FixRun(h: Digest): seq<Action> {
    [Start(1, FixRequest(h), MINT)] + Thrice(1)
  }

  lemma PutReads(env: Env, first: Body, blobs: Blobs, input: BodyInput, late: Body)
    requires IntoBody(env, input) == Some(late)
    ensures Exec(env, Sys(Lone(first), blobs, map[]), PutRun(input)) == Sys(Lone(first), blobs, map[0 := PutReady(input, late)])
  {
    LoneFinds(first);
    Arrives(env, Sys(Lone(first), blobs, map[]), 0, PutRecord(1, input), CheckPut(input), OneFound(Mutable, None, [Version(10, first)]));
  }

  lemma FixReads(env: Env, first: Body, blobs: Blobs, p: Proc, h: Digest)
    ensures Exec(env, Sys(Lone(first), blobs, map[0 := p]), FixRun(h)) ==
            Sys(Lone(first), blobs, map[0 := p, 1 := Proc(FixRequest(h),
              Resume(env, 1, OneFound(Mutable, None, [Version(10, first)]), CheckFix(h), MINT))])
  {
    ParseOfDisplay(h);
    ParsersAgreeWithoutPlus(HexOf(h), h);
    LoneFinds(first);
    Arrives(env, Sys(Lone(first), blobs, map[0 := p]), 1, FixRequest(h), CheckFix(h), OneFound(Mutable, None, [Version(10, first)]));
  }

  lemma StartIsGood(env: Env, first: Body, blobs: Blobs)
    requires Addressed(env, blobs)
    ensures Initial(env, Sys(Lone(first), blobs, map[]))
    ensures AllFossilsOk(env, Lone(first), blobs)
  {
    var t := Lone(first);
    assert 10 in t.versions && t.versions[10].recordId == 1;
    assert HasVersion(t, 1);
  }

  /** The PUT has read, and the fix has read and checked. */
  lemma BothRead(env: Env, first: Bytes, blobs: Blobs, input: BodyInput, late: Body)
    requires IntoBody(env, input) == Some(late)
    ensures Exec(env, Sys(Lone(Inline(first)), blobs, map[]), PutRun(input) + FixRun(env.sha(first))) ==
            Sys(Lone(Inline(first)), blobs, map[0 := PutReady(input, late),
              1 := Proc(FixRequest(env.sha(first)), Assembling(1, env.sha(first), ReadRecord))])
  {
    PutReads(env, Inline(first), blobs, input, late);
    FixReads(env, Inline(first), blobs, PutReady(input, late), env.sha(first));
    ExecSplit(env, Sys(Lone(Inline(first)), blobs, map[]), PutRun(input), FixRun(env.sha(first)));
  }

  // ---- The PUT commits last ----

  /** The run up to the moment the fix has committed. */
  function FixedRun(input: BodyInput, h: Digest): seq<Action> {
    PutRun(input) + FixRun(h) + (Thrice(1) + [Step(1, MINT)])
  }

  lemma FixCommits(env: Env, first: Bytes, blobs: Blobs, p: Proc, h: Digest)
    ensures Exec(env, Sys(Lone(Inline(first)), blobs, map[0 := p, 1 := Proc(FixRequest(h), Assembling(1, h, ReadRecord))]),
                 Thrice(1) + [Step(1, MINT)]) ==
            Sys(LoneFixed(Inline(first), h), blobs, map[0 := p, 1 := Proc(FixRequest(h), Finding(1, ReadRecord, Reply))])
  {
    var s := Sys(Lone(Inline(first)), blobs, map[0 := p, 1 := Proc(FixRequest(h), Assembling(1, h, ReadRecord))]);
    var n := s.(procs := s.procs[1 := Proc(FixRequest(h), Committing(1, h, 5, 10, Inline(first)))]);
    LoneFinds(Inline(first));
    AssembleUndisturbed(env, s, 1, 1, h, MINTS, OneFound(Mutable, None, [Version(10, Inline(first))]));
    NoneLeft(env, n, 1);
    ExecSplit(env, s, Thrice(1), [Step(1, MINT)]);
    ExecOne(env, n, Step(1, MINT));
    LoneCommits(first, h);
  }

  lemma RunToFixed(env: Env, first: Bytes, blobs: Blobs, input: BodyInput, late: Body)
    requires IntoBody(env, input) == Some(late)
    ensures Exec(env, Sys(Lone(Inline(first)), blobs, map[]), FixedRun(input, env.sha(first))) ==
            Sys(LoneFixed(Inline(first), env.sha(first)), blobs,
                map[0 := PutReady(input, late), 1 := Proc(FixRequest(env.sha(first)), Finding(1, ReadRecord, Reply))])
  {
    BothRead(env, first, blobs, input, late);
    FixCommits(env, first, blobs, PutReady(input, late), env.sha(first));
    ExecSplit(env, Sys(Lone(Inline(first)), blobs, map[]),
              PutRun(input) + FixRun(env.sha(first)), Thrice(1) + [Step(1, MINT)]);
  }

  /** Appending to the fixed record changes what a find returns, and the digest no longer fits. */
  lemma LateAppendThaws(env: Env, first: Body, blobs: Blobs, late: Body, h: Digest)
    requires PayloadHash(env, blobs, late) != Some(h)
    ensures AppendTx(LoneFixed(first, h), 11, LateRow(late)).Some?
    ensures var t := LoneFixed(first, h);
            var u := AppendTx(t, 11, LateRow(late)).value;
            && Find(u, 1) != Find(t, 1) && IsFixed(u, 1) && !FossilOk(env, u, blobs, 1)
  {
    var t := LoneFixed(first, h);
    var u := AppendTx(t, 11, LateRow(late)).value;
    LoneFixedFinds(first, h);
    AppendThawsIff(t, 11, LateRow(late), 1);
    GrownChain(first, late);
    assert u.versions == map[10 := VersionRow(1, first, 0), 11 := LateRow(late)];
    assert u.records[1].contentHash == Some(HexOf(h));
    ParseOfDisplay(h);
  }

  /** The PUT commits one action after the fix has. */
  lemma RunToThawed(env: Env, first: Bytes, blobs: Blobs, input: BodyInput, late: Body)
    requires IntoBody(env, input) == Some(late)
    ensures var s, h := Sys(Lone(Inline(first)), blobs, map[]), env.sha(first);
            var fixed, n := Exec(env, s, FixedRun(input, h)), Exec(env, s, FixedRun(input, h) + [Step(0, MINT)]);
            && fixed.tables == LoneFixed(Inline(first), h)
            && Some(n.tables) == AppendTx(LoneFixed(Inline(first), h), 11, LateRow(late)) && n.blobs == blobs
  {
    var s, h := Sys(Lone(Inline(first)), blobs, map[]), env.sha(first);
    RunToFixed(env, first, blobs, input, late);
    ExecSplit(env, s, FixedRun(input, h), [Step(0, MINT)]);
    ExecOne(env, Exec(env, s, FixedRun(input, h)), Step(0, MINT));
  }

  /** With the overlap, a record found fixed is later found changed, and its
      digest is not that of its trailing payload. */
  lemma OverlapThaws(env: Env, first: Bytes, blobs: Blobs, input: BodyInput, late: Body)
    requires Addressed(env, blobs) && IntoBody(env, input) == Some(late)
    requires PayloadHash(env, blobs, late) != Some(env.sha(first))
    ensures var s, run := Sys(Lone(Inline(first)), blobs, map[]), FixedRun(input, env.sha(first));
            var fixed, n := Exec(env, s, run), Exec(env, s, run + [Step(0, MINT)]);
            && Initial(env, s) && AllFossilsOk(env, s.tables, s.blobs)
            && Find(fixed.tables, 1) == Ok(Some(OneFound(Fixed, Some(env.sha(first)), [Version(10, Inline(first))])))
            && Find(n.tables, 1) != Find(fixed.tables, 1)
            && IsFixed(n.tables, 1) && !FossilOk(env, n.tables, n.blobs, 1)
  {
    var s, h := Sys(Lone(Inline(first)), blobs, map[]), env.sha(first);
    StartIsGood(env, Inline(first), blobs);
    RunToThawed(env, first, blobs, input, late);
    LoneFixedFinds(Inline(first), h);
    LateAppendThaws(env, Inline(first), blobs, late, h);
  }

  // ---- The PUT commits between the check and the second read ----

  /** The run up to the fix's transaction, from the moment it has checked the payload. */
  function LateRun(): seq<Action> {
    [Step(0, MINT)] + Thrice(1)
  }

  /** The PUT appends, and the fix reads the grown record without checking its new payload. */
  lemma ReadsUnchecked(env: Env, first: Body, blobs: Blobs, input: BodyInput, late: Body, h: Digest)
    ensures Exec(env, Sys(Lone(first), blobs, map[0 := PutReady(input, late), 1 := Proc(FixRequest(h), Assembling(1, h, ReadRecord))]),
                 LateRun()) ==
            Sys(Grown(first, late), blobs,
                map[0 := PutAnswering(input), 1 := Proc(FixRequest(h), Committing(1, h, 5, 11, Hardened(late, h)))])
  {
    var fix := Proc(FixRequest(h), Assembling(1, h, ReadRecord));
    var s := Sys(Lone(first), blobs, map[0 := PutReady(input, late), 1 := fix]);
    var n := Sys(Grown(first, late), blobs, map[0 := PutAnswering(input), 1 := fix]);
    ExecOne(env, s, Step(0, MINT));
    LoneGrows(first, late);
    assert Apply(env, s, Step(0, MINT)) == n;
    GrownFinds(first, late);
    AssembleUndisturbed(env, n, 1, 1, h, MINTS, OneFound(Mutable, None, [Version(10, first), Version(11, late)]));
    NoneLeft(env, With(n, 1, Committing(1, h, 5, 11, Hardened(late, h))), 1);
    ExecSplit(env, s, [Step(0, MINT)], Thrice(1));
  }

  /** What the transaction then writes. */
  lemma CommitsUnchecked(env: Env, first: Body, blobs: Blobs, p: Proc, late: Body, h: Digest)
    ensures var s := Sys(Grown(first, late), blobs,
                         map[0 := p, 1 := Proc(FixRequest(h), Committing(1, h, 5, 11, Hardened(late, h)))]);
            var u := Exec(env, s, [Step(1, MINT)]).tables;
            && Exec(env, s, [Step(1, MINT)]).blobs == blobs
            && u.versions == map[10 := VersionRow(1, first, 0), 11 := LateRow(Hardened(late, h))]
            && 1 in u.records && u.records[1].state == "fixed" && u.records[1].contentHash == Some(HexOf(h))
            && Tail(u, 1).body == Hardened(late, h)
  {
    var s := Sys(Grown(first, late), blobs,
                 map[0 := p, 1 := Proc(FixRequest(h), Committing(1, h, 5, 11, Hardened(late, h)))]);
    ExecOne(env, s, Step(1, MINT));
    GrownChain(first, Hardened(late, h));
  }

  /** With the overlap, the fix itself can write a wrong fossil: a record that
      was not fixed before is fixed under a digest its trailing payload does not have. */
  lemma OverlapMisfixes(env: Env, first: Bytes, blobs: Blobs, input: BodyInput, late: Body)
    requires Addressed(env, blobs) && IntoBody(env, input) == Some(late)
    requires PayloadHash(env, blobs, Hardened(late, env.sha(first))) != Some(env.sha(first))
    ensures var s, run := Sys(Lone(Inline(first)), blobs, map[]), PutRun(input) + FixRun(env.sha(first)) + LateRun();
            var before, n := Exec(env, s, run), Exec(env, s, run + [Step(1, MINT)]);
            && Initial(env, s) && AllFossilsOk(env, s.tables, s.blobs)
            && !IsFixed(before.tables, 1) && IsFixed(n.tables, 1) && !FossilOk(env, n.tables, n.blobs, 1)
  {
    var s, h := Sys(Lone(Inline(first)), blobs, map[]), env.sha(first);
    var run := PutRun(input) + FixRun(h) + LateRun();
    StartIsGood(env, Inline(first), blobs);
    BothRead(env, first, blobs, input, late);
    ReadsUnchecked(env, Inline(first), blobs, input, late, h);
    ExecSplit(env, s, PutRun(input) + FixRun(h), LateRun());
    CommitsUnchecked(env, Inline(first), blobs, PutAnswering(input), late, h);
    ExecSplit(env, s, run, [Step(1, MINT)]);
    ParseOfDisplay(h);
  }

  // ---- The same with blobs ----

  /** The run in which the fix has read, hashed and copied the blob. */
  function BlobRun(input: BodyInput, h: Digest): seq<Action> {
    PutRun(input) + FixRun(h) + Thrice(1)
  }

  lemma BlobChecked(env: Env, key: string, size: nat, blobs: Blobs, p: Proc, h: Digest)
    requires env.hasStorage && key in blobs && env.sha(blobs[key]) == h
    ensures Exec(env, Sys(Lone(BlobRef(key, size)), blobs, map[0 := p, 1 := Proc(FixRequest(h), Hashing(1, h, key))]), Thrice(1)) ==
            Sys(Lone(BlobRef(key, size)), PutIfAbsent(blobs, FixedKey(h), blobs[key]),
                map[0 := p, 1 := Proc(FixRequest(h), Assembling(1, h, ReadRecord))])
  {
    var s := Sys(Lone(BlobRef(key, size)), blobs, map[0 := p, 1 := Proc(FixRequest(h), Hashing(1, h, key))]);
    var n := Sys(s.tables, PutIfAbsent(blobs, FixedKey(h), blobs[key]), map[0 := p, 1 := Proc(FixRequest(h), Assembling(1, h, ReadRecord))]);
    FixCopies(env, s, 1, FixRequest(h), 1, h, BlobRef(key, size), MINTS);
    NoneLeft(env, n, 1);
  }

  lemma BlobRead(env: Env, key: string, size: nat, blobs: Blobs, input: BodyInput, late: Body, h: Digest)
    requires env.hasStorage && IntoBody(env, input) == Some(late)
    ensures Exec(env, Sys(Lone(BlobRef(key, size)), blobs, map[]), PutRun(input) + FixRun(h)) ==
            Sys(Lone(BlobRef(key, size)), blobs,
                map[0 := PutReady(input, late), 1 := Proc(FixRequest(h), Hashing(1, h, key))])
  {
    PutReads(env, BlobRef(key, size), blobs, input, late);
    FixReads(env, BlobRef(key, size), blobs, PutReady(input, late), h);
    ExecSplit(env, Sys(Lone(BlobRef(key, size)), blobs, map[]), PutRun(input), FixRun(h));
  }

  lemma RunToCopied(env: Env, key: string, size: nat, blobs: Blobs, input: BodyInput, late: Body, h: Digest)
    requires IntoBody(env, input) == Some(late)
    requires env.hasStorage && key in blobs && env.sha(blobs[key]) == h
    ensures Exec(env, Sys(Lone(BlobRef(key, size)), blobs, map[]), BlobRun(input, h)) ==
            Sys(Lone(BlobRef(key, size)), PutIfAbsent(blobs, FixedKey(h), blobs[key]),
                map[0 := PutReady(input, late), 1 := Proc(FixRequest(h), Assembling(1, h, ReadRecord))])
  {
    BlobRead(env, key, size, blobs, input, late, h);
    BlobChecked(env, key, size, blobs, PutReady(input, late), h);
    ExecSplit(env, Sys(Lone(BlobRef(key, size)), blobs, map[]), PutRun(input) + FixRun(h), Thrice(1));
  }

  /** With the overlap, a version whose blob was there ends up pointing at
      another blob: what the PUT stored is no longer what its version stands for. */
  lemma OverlapRedirects(env: Env, key: string, size: nat, blobs: Blobs, other: string, otherSize: nat)
    requires Addressed(env, blobs) && env.hasStorage
    requires key in blobs && other in blobs && other != "" && env.sha(blobs[other]) != env.sha(blobs[key])
    ensures var s, h := Sys(Lone(BlobRef(key, size)), blobs, map[]), env.sha(blobs[key]);
            var run := BlobRun(BlobInput(other, otherSize), h) + LateRun();
            var before, n := Exec(env, s, run), Exec(env, s, run + [Step(1, MINT)]);
            && Initial(env, s) && AllFossilsOk(env, s.tables, s.blobs)
            && 11 in before.tables.versions && 11 in n.tables.versions
            && PayloadHash(env, before.blobs, before.tables.versions[11].body) == Some(env.sha(blobs[other]))
            && PayloadHash(env, n.blobs, n.tables.versions[11].body) == Some(h)
  {
    var s, h := Sys(Lone(BlobRef(key, size)), blobs, map[]), env.sha(blobs[key]);
    var input, late := BlobInput(other, otherSize), BlobRef(other, otherSize);
    var after := PutIfAbsent(blobs, FixedKey(h), blobs[key]);
    StartIsGood(env, BlobRef(key, size), blobs);
    RunToCopied(env, key, size, blobs, input, late, h);
    ReadsUnchecked(env, BlobRef(key, size), after, input, late, h);
    ExecSplit(env, s, BlobRun(input, h), LateRun());
    CommitsUnchecked(env, BlobRef(key, size), after, PutAnswering(input), late, h);
    ExecSplit(env, s, BlobRun(input, h) + LateRun(), [Step(1, MINT)]);
  }

  // ---- What these runs have in common ----

  /** Keeping PUTs and fixes apart rules out the run that thaws and the run that misfixes. */
  lemma OverlapIsExcluded(env: Env, first: Bytes, blobs: Blobs, input: BodyInput, late: Body)
    requires Addressed(env, blobs) && IntoBody(env, input) == Some(late)
    ensures var s, h := Sys(Lone(Inline(first)), blobs, map[]), env.sha(first);
            && !NoOverlap(env, s, FixedRun(input, h) + [Step(0, MINT)])
            && !NoOverlap(env, s, PutRun(input) + FixRun(h) + LateRun() + [Step(1, MINT)])
  {
    var s, h := Sys(Lone(Inline(first)), blobs, map[]), env.sha(first);
    var both := PutRun(input) + FixRun(h);
    BothRead(env, first, blobs, input, late);
    var procs := Exec(env, s, both).procs;
    assert FixTarget(procs[1].pc) == PutTarget(procs[0].pc);
    assert !Apart(procs);
    assert (FixedRun(input, h) + [Step(0, MINT)])[..|both|] == both;
    assert (both + LateRun() + [Step(1, MINT)])[..|both|] == both;
  }
}
