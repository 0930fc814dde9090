/** The size a blob reference states: no request compares it with the blob.
    Exactly which steps leave a stated size that its blob does not have. */
module Sizes {
  import opened Basics
  import opened Digests
  import opened Core
  import opened Things
  import opened Convert
  import opened Tables
  import opened Load
  import opened Storage
  import opened Server
  import opened Integrity
  import opened Breaches

  /** The body states the size of the blob it refers to, if that blob is there. */
  predicate SizeFits(blobs: Blobs, body: Body) {
    body.BlobRef? && body.key in blobs ==> body.size == |blobs[body.key]|
  }

  ghost predicate SizesFit(t: Tables, blobs: Blobs) {
    forall k | k in t.versions :: SizeFits(blobs, t.versions[k].body)
  }

  // ---- Each step ----

  /** A create keeps all sizes fitting exactly when every body it brings fits. */
  lemma CreateFitsIff(t: Tables, blobs: Blobs, row: PersistedRow, who: Thing)
    requires SizesFit(t, blobs) && CreateTx(t, row, who).Some?
    ensures SizesFit(CreateTx(t, row, who).value, blobs) <==>
            forall v | v in row.versions :: SizeFits(blobs, v.body)
  {
    var u := CreateTx(t, row, who).value;
    forall i | 0 <= i < |row.versions|
      ensures row.versions[i].id in u.versions && u.versions[row.versions[i].id] == VersionRowOf(row.versions[i])
    {
      WithVersionsAt(t.versions, row.versions, i);
    }
  }

  lemma AppendFitsIff(t: Tables, blobs: Blobs, vid: Uuid, row: VersionRow)
    requires SizesFit(t, blobs) && AppendTx(t, vid, row).Some?
    ensures SizesFit(AppendTx(t, vid, row).value, blobs) <==> SizeFits(blobs, row.body)
  {
    assert AppendTx(t, vid, row).value.versions[vid] == row;
  }

  lemma FixFitsIff(t: Tables, blobs: Blobs, rid: Uuid, hash: string, now: Time, vid: Uuid, body: Body)
    requires SizesFit(t, blobs) && vid in t.versions
    ensures SizesFit(FixTx(t, rid, hash, now, vid, body), blobs) <==> SizeFits(blobs, body)
  {
    assert FixTx(t, rid, hash, now, vid, body).versions[vid].body == body;
  }

  /** Whatever refers to `key` states the size of `bytes`, or `key` is taken. */
  ghost predicate AwaitedFits(t: Tables, blobs: Blobs, key: string, bytes: Bytes) {
    key in blobs || forall k | k in t.versions && t.versions[k].body.BlobRef? && t.versions[k].body.key == key ::
                      t.versions[k].body.size == |bytes|
  }

  /** A conditional write keeps all sizes fitting exactly when the key was taken
      or every version that refers to it states the size of what is written. */
  lemma PutFitsIff(t: Tables, blobs: Blobs, key: string, bytes: Bytes)
    requires SizesFit(t, blobs)
    ensures SizesFit(t, PutIfAbsent(blobs, key, bytes)) <==> AwaitedFits(t, blobs, key, bytes)
  {
    var after := PutIfAbsent(blobs, key, bytes);
    forall k | k in t.versions
      ensures SizeFits(after, t.versions[k].body) <==>
              (key in blobs || (t.versions[k].body.BlobRef? && t.versions[k].body.key == key ==> t.versions[k].body.size == |bytes|))
    {
      assert SizeFits(blobs, t.versions[k].body);
    }
  }

  // ---- Every run ----

  /** What the step about to be taken at `pc` stores states right sizes. */
  ghost predicate StepFits(env: Env, t: Tables, blobs: Blobs, pc: Pc) {
    match pc
    case SaveCreate(r, creator, now) =>
      ParseThing(creator).Ok? && CreateTx(t, RecordToRow(r, creator, now), ParseThing(creator).value).Some? ==>
        forall v | v in r.versions :: SizeFits(blobs, v.body)
    case Appending(_, vid, row) => vid in t.versions || SizeFits(blobs, row.body)
    case Committing(_, _, _, vid, body) => vid in t.versions ==> SizeFits(blobs, body)
    case Fossilizing(_, h, bytes) => AwaitedFits(t, blobs, FixedKey(h), bytes)
    case Uploading(bytes) => AwaitedFits(t, blobs, AssetKey(env.sha(bytes)), bytes)
    case _ => true
  }

  lemma RowBodies(blobs: Blobs, r: Record, creator: string, now: Time)
    ensures (forall v | v in RecordToRow(r, creator, now).versions :: SizeFits(blobs, v.body)) <==>
            (forall v | v in r.versions :: SizeFits(blobs, v.body))
  {
    var row := RecordToRow(r, creator, now);
    assert forall i | 0 <= i < |r.versions| :: row.versions[i].body == r.versions[i].body;
    if forall v | v in row.versions :: SizeFits(blobs, v.body) {
      forall v | v in r.versions
        ensures SizeFits(blobs, v.body)
      {
        var i :| 0 <= i < |r.versions| && r.versions[i] == v;
        assert row.versions[i] in row.versions;
      }
    }
  }

  lemma StepFitsIff(env: Env, t: Tables, blobs: Blobs, pc: Pc)
    requires SizesFit(t, blobs)
    ensures SizesFit(TablesAfter(t, pc), BlobsAfter(env, blobs, pc)) <==> StepFits(env, t, blobs, pc)
  {
    match pc {
      case SaveCreate(r, creator, now) =>
        var row := RecordToRow(r, creator, now);
        if ParseThing(creator).Ok? && CreateTx(t, row, ParseThing(creator).value).Some? {
          CreateFitsIff(t, blobs, row, ParseThing(creator).value);
          RowBodies(blobs, r, creator, now);
        }
      case Appending(_, vid, row) =>
        if AppendTx(t, vid, row).Some? {
          AppendFitsIff(t, blobs, vid, row);
        }
      case Committing(id, h, now, vid, body) =>
        if vid in t.versions {
          FixFitsIff(t, blobs, id, HexOf(h), now, vid, body);
        }
      case Fossilizing(_, h, bytes) => PutFitsIff(t, blobs, FixedKey(h), bytes);
      case Uploading(bytes) => PutFitsIff(t, blobs, AssetKey(env.sha(bytes)), bytes);
      case _ =>
    }
  }

  ghost predicate FitsAt(env: Env, s: Sys, run: seq<Action>, k: nat)
    requires k <= |run|
  {
    SizesFit(Exec(env, s, run[..k]).tables, Exec(env, s, run[..k]).blobs)
  }

  ghost predicate ActFitsAt(env: Env, s: Sys, run: seq<Action>, k: nat)
    requires k < |run|
  {
    var n := Exec(env, s, run[..k]);
    Moved(n, run[k]).Some? ==> StepFits(env, n.tables, n.blobs, Moved(n, run[k]).value)
  }

  lemma FitsNext(env: Env, s: Sys, run: seq<Action>, k: nat)
    requires k < |run| && FitsAt(env, s, run, k)
    ensures FitsAt(env, s, run, k + 1) <==> ActFitsAt(env, s, run, k)
  {
    var n := Exec(env, s, run[..k]);
    ExecNext(env, s, run, k);
    ApplyData(env, n, run[k]);
    if Moved(n, run[k]).Some? {
      StepFitsIff(env, n.tables, n.blobs, Moved(n, run[k]).value);
    }
  }

  lemma {:induction false} FitsUpTo(env: Env, s: Sys, run: seq<Action>, k: nat)
    requires SizesFit(s.tables, s.blobs) && k <= |run|
    requires forall j: nat | j < k :: ActFitsAt(env, s, run, j)
    ensures FitsAt(env, s, run, k)
  {
    if k > 0 {
      FitsUpTo(env, s, run, k - 1);
      FitsNext(env, s, run, k - 1);
    }
  }

  /** In every run all stated sizes fit at every moment exactly when every action stores only right sizes. */
  lemma RunFitsIff(env: Env, s: Sys, run: seq<Action>)
    requires SizesFit(s.tables, s.blobs)
    ensures (forall k: nat | k <= |run| :: FitsAt(env, s, run, k)) <==>
            (forall k: nat | k < |run| :: ActFitsAt(env, s, run, k))
  {
    if forall k: nat | k <= |run| :: FitsAt(env, s, run, k) {
      forall k: nat | k < |run|
        ensures ActFitsAt(env, s, run, k)
      {
        assert FitsAt(env, s, run, k + 1);
        FitsNext(env, s, run, k);
      }
    }
    if forall k: nat | k < |run| :: ActFitsAt(env, s, run, k) {
      forall k: nat | k <= |run|
        ensures FitsAt(env, s, run, k)
      {
        FitsUpTo(env, s, run, k);
      }
    }
  }

  // ---- No request is refused for a wrong size ----

  /** A PUT on a mutable record goes on to append whatever size it states. */
  lemma AnySizeAppends(env: Env, id: Uuid, l: Loaded, key: string, size: nat, mint: Mint)
    ensures Resume(env, id, l, CheckPut(BlobInput(key, size)), mint) ==
            Appending(id, mint.vid, VersionRow(id, BlobRef(key, size), mint.now)) <==>
            l.record.state.Mutable? && key != ""
  {
  }

  const MINT := Mint(1, 10, 0)

  /** A POST of a blob reference, served from arrival to the transaction. */
  function PostRun(key: string, size: nat): seq<Action> {
    [Start(0, PostRecord("log", BlobInput(key, size), None), MINT), Step(0, MINT), Step(0, MINT)]
  }

  lemma PostReachesCreate(env: Env, blobs: Blobs, key: string, size: nat)
    requires key != ""
    ensures Exec(env, Sys(Tables(map[], map[], [], []), blobs, map[]), PostRun(key, size)[..2]) ==
            Sys(Tables(map[], map[], [], []), blobs,
                map[0 := Proc(PostRecord("log", BlobInput(key, size), None),
                              SaveCreate(NewRecord(1, 10, Log, BlobRef(key, size)), CreatorFromClaims(None), 0))])
  {
    var s := Sys(Tables(map[], map[], [], []), blobs, map[]);
    var req := PostRecord("log", BlobInput(key, size), None);
    ExecNext(env, s, PostRun(key, size), 0);
    ExecNext(env, s, PostRun(key, size), 1);
    assert Exec(env, s, PostRun(key, size)[..1]) ==
           Sys(s.tables, blobs, map[0 := Proc(req, SaveSelect(NewRecord(1, 10, Log, BlobRef(key, size)), CreatorFromClaims(None), 0))]);
  }

  /** Creating a record of one version in empty tables. */
  lemma CreateAlone(r: Record, v: Version, creator: string, now: Time)
    requires r.versions == [v] && ParseThing(creator).Ok?
    ensures var u := TablesAfter(Tables(map[], map[], [], []), SaveCreate(r, creator, now));
            r.id in u.records && v.id in u.versions && u.versions[v.id].body == v.body
  {
    var row := RecordToRow(r, creator, now);
    assert row.versions == [VersionToPersisted(v, r.id, now)];
    assert FreshVersions(map[], row.versions);
    WithVersionsAt(map[], row.versions, 0);
  }

  lemma PostCreates(body: Body)
    ensures var u := TablesAfter(Tables(map[], map[], [], []), SaveCreate(NewRecord(1, 10, Log, body), CreatorFromClaims(None), 0));
            1 in u.records && 10 in u.versions && u.versions[10].body == body
  {
    var creator := CreatorFromClaims(None);
    assert ParseThing(creator).Ok? by { ClaimsParse(None); }
    CreateAlone(NewRecord(1, 10, Log, body), Version(10, body), creator, 0);
  }

  lemma LastStep(env: Env, s: Sys, run: seq<Action>, p: Proc)
    requires |run| == 3 && run[2] == Step(0, MINT)
    requires 0 in Exec(env, s, run[..2]).procs && Exec(env, s, run[..2]).procs[0] == p
    ensures Exec(env, s, run).tables == TablesAfter(Exec(env, s, run[..2]).tables, p.pc)
    ensures Exec(env, s, run).blobs == BlobsAfter(env, Exec(env, s, run[..2]).blobs, p.pc)
  {
    ExecNext(env, s, run, 2);
    assert run[..3] == run;
    ApplyData(env, Exec(env, s, run[..2]), Step(0, MINT));
  }

  lemma PostStores(env: Env, blobs: Blobs, key: string, size: nat)
    requires key != ""
    ensures var n := Exec(env, Sys(Tables(map[], map[], [], []), blobs, map[]), PostRun(key, size));
            1 in n.tables.records && 10 in n.tables.versions && n.tables.versions[10].body == BlobRef(key, size) && n.blobs == blobs
  {
    var s := Sys(Tables(map[], map[], [], []), blobs, map[]);
    PostReachesCreate(env, blobs, key, size);
    LastStep(env, s, PostRun(key, size), Exec(env, s, PostRun(key, size)[..2]).procs[0]);
    PostCreates(BlobRef(key, size));
  }

  /** Three actions of one POST store a size its blob does not have. */
  lemma WrongSizeStored(env: Env, key: string, bytes: Bytes, size: nat)
    requires key != "" && size != |bytes| && Addressed(env, map[key := bytes])
    ensures var s := Sys(Tables(map[], map[], [], []), map[key := bytes], map[]);
            var n := Exec(env, s, PostRun(key, size));
            Initial(env, s) && SizesFit(s.tables, s.blobs) && 1 in n.tables.records && !SizesFit(n.tables, n.blobs)
  {
    var t, blobs := Tables(map[], map[], [], []), map[key := bytes];
    EmptyWellFormed();
    PostStores(env, blobs, key, size);
    var n := Exec(env, Sys(t, blobs, map[]), PostRun(key, size));
    assert !SizeFits(n.blobs, n.tables.versions[10].body);
  }
}
