/** Exactly which steps break what keeping PUTs and fixes apart protects, in
    every run of any requests: that fixed records carry the digest of their
    trailing payload, that they stay as they are, and that a version goes on
    standing for the payload it was stored with. */
module Breaches {
  import opened Basics
  import opened Digests
  import opened Core
  import opened Things
  import opened Convert
  import opened Tables
  import opened Load
  import opened Storage
  import opened Server
  import opened Integrity
  import opened Fossils
  import opened Frozen

  /** The counter at which an action finds the request it moves. */
  function Moved(s: Sys, a: Action): Option<Pc> {
    if a.Step? && a.pid in s.procs then Some(s.procs[a.pid].pc) else None
  }

  /** Stored data changes only by the step of a request. */
  lemma ApplyData(env: Env, s: Sys, a: Action)
    ensures var n, pc := Apply(env, s, a), Moved(s, a);
            && n.tables == (if pc.Some? then TablesAfter(s.tables, pc.value) else s.tables)
            && n.blobs == (if pc.Some? then BlobsAfter(env, s.blobs, pc.value) else s.blobs)
  {
  }

  // ---- Right fossils ----

  /** The body that reads last in `id` once `body` is written to version `vid`. */
  function LastBody(t: Tables, id: Uuid, vid: Uuid, body: Body): Body {
    if Tail(t, id).id == vid then body else Tail(t, id).body
  }

  /** A fix transaction writes a right fossil exactly when the body that reads
      last afterwards is fit for the digest: it does not look whether it is. */
  lemma CommitRightIff(env: Env, t: Tables, blobs: Blobs, id: Uuid, h: Digest, now: Time, vid: Uuid, body: Body)
    requires id in t.records && HasVersion(t, id)
    ensures FossilOk(env, FixTx(t, id, HexOf(h), now, vid, body), blobs, id) <==>
            Stamped(env, blobs, LastBody(t, id, vid, body), h)
  {
    TailAfterFix(t, id, HexOf(h), now, vid, body, id);
    ParseOfDisplay(h);
  }

  /** A fix of the version that reads last is right exactly when the hardened body's payload has the digest. */
  lemma HardenRightIff(env: Env, t: Tables, blobs: Blobs, id: Uuid, h: Digest, now: Time)
    requires id in t.records && HasVersion(t, id)
    ensures FossilOk(env, FixTx(t, id, HexOf(h), now, Tail(t, id).id, Hardened(Tail(t, id).body, h)), blobs, id) <==>
            PayloadHash(env, blobs, Hardened(Tail(t, id).body, h)) == Some(h)
  {
    CommitRightIff(env, t, blobs, id, h, now, Tail(t, id).id, Hardened(Tail(t, id).body, h));
  }

  /** An append keeps the fossil of its record right exactly when it does not
      read last or its body is fit for the record's digest. */
  lemma AppendRightIff(env: Env, t: Tables, blobs: Blobs, vid: Uuid, row: VersionRow)
    requires AppendTx(t, vid, row).Some?
    requires row.recordId in t.records && HasVersion(t, row.recordId) && FossilOk(env, t, blobs, row.recordId)
    ensures FossilOk(env, AppendTx(t, vid, row).value, blobs, row.recordId) <==>
            !ComesLast(t.versions, vid, row)
            || Stamped(env, blobs, row.body, ParseHex(t.records[row.recordId].contentHash.value).value)
  {
    TailAfterAppend(t, vid, row);
  }

  /** The step about to be taken at `pc` leaves fossils right: a transaction of
      a fix stamps what it should, an append does not hide the payload of a fixed record. */
  ghost predicate StepsRight(env: Env, t: Tables, blobs: Blobs, pc: Pc) {
    match pc
    case Committing(id, h, _, vid, body) => Stamped(env, blobs, LastBody(t, id, vid, body), h)
    case Appending(id, vid, row) =>
      vid in t.versions || !IsFixed(t, id) || !ComesLast(t.versions, vid, row)
      || (t.records[id].contentHash.Some? && ParseHex(t.records[id].contentHash.value).Ok?
          && Stamped(env, blobs, row.body, ParseHex(t.records[id].contentHash.value).value))
    case _ => true
  }

  /** A step that leaves the records but one as they are. */
  lemma OthersRight(env: Env, t: Tables, u: Tables, blobs: Blobs, rid: Uuid)
    requires AllFossilsOk(env, t, blobs) && FramesOthers(t, u, rid) && u.records.Keys == t.records.Keys
    ensures AllFossilsOk(env, u, blobs) <==> !IsFixed(u, rid) || FossilOk(env, u, blobs, rid)
  {
    OtherFossilsKept(env, t, u, blobs, rid);
  }

  lemma CommitStepRight(env: Env, t: Tables, blobs: Blobs, id: Uuid, h: Digest, now: Time, vid: Uuid, body: Body)
    requires AllFossilsOk(env, t, blobs) && id in t.records && HasVersion(t, id)
    requires vid in t.versions && t.versions[vid].recordId == id
    ensures AllFossilsOk(env, FixTx(t, id, HexOf(h), now, vid, body), blobs) <==>
            Stamped(env, blobs, LastBody(t, id, vid, body), h)
  {
    var u := FixTx(t, id, HexOf(h), now, vid, body);
    FixFramesOthers(t, id, HexOf(h), now, vid, body);
    OthersRight(env, t, u, blobs, id);
    CommitRightIff(env, t, blobs, id, h, now, vid, body);
  }

  lemma AppendStepRight(env: Env, t: Tables, blobs: Blobs, id: Uuid, vid: Uuid, row: VersionRow)
    requires AllFossilsOk(env, t, blobs) && id in t.records && HasVersion(t, id) && row.recordId == id
    requires AppendTx(t, vid, row).Some?
    ensures AllFossilsOk(env, AppendTx(t, vid, row).value, blobs) <==> StepsRight(env, t, blobs, Appending(id, vid, row))
  {
    var u := AppendTx(t, vid, row).value;
    AppendFramesOthers(t, vid, row);
    OthersRight(env, t, u, blobs, id);
    if IsFixed(t, id) {
      AppendRightIff(env, t, blobs, vid, row);
    }
  }

  lemma CreateStepRight(env: Env, t: Tables, blobs: Blobs, r: Record, creator: string, now: Time, who: Thing)
    requires AllFossilsOk(env, t, blobs) && r.state.Mutable? && CreateTx(t, RecordToRow(r, creator, now), who).Some?
    ensures AllFossilsOk(env, CreateTx(t, RecordToRow(r, creator, now), who).value, blobs)
  {
    var row := RecordToRow(r, creator, now);
    var u := CreateTx(t, row, who).value;
    CreateFramesOthers(t, row, who);
    OtherFossilsKept(env, t, u, blobs, r.id);
  }

  lemma UploadStepRight(env: Env, t: Tables, blobs: Blobs, after: Blobs)
    requires AllFossilsOk(env, t, blobs) && Grows(blobs, after)
    ensures AllFossilsOk(env, t, after)
  {
    forall id | IsFixed(t, id)
      ensures FossilOk(env, t, after, id)
    {
      FossilOkKept(env, t, t, blobs, after, id);
    }
  }

  lemma StepRightIff(env: Env, t: Tables, blobs: Blobs, pc: Pc)
    requires WellFormed(t) && Addressed(env, blobs) && PcOk(env, t, blobs, pc) && AllFossilsOk(env, t, blobs)
    ensures AllFossilsOk(env, TablesAfter(t, pc), BlobsAfter(env, blobs, pc)) <==> StepsRight(env, t, blobs, pc)
  {
    match pc {
      case Committing(id, h, now, vid, body) => CommitStepRight(env, t, blobs, id, h, now, vid, body);
      case Appending(id, vid, row) =>
        if AppendTx(t, vid, row).Some? {
          AppendStepRight(env, t, blobs, id, vid, row);
        }
      case SaveCreate(r, creator, now) =>
        if CreateTx(t, RecordToRow(r, creator, now), ParseThing(creator).value).Some? {
          CreateStepRight(env, t, blobs, r, creator, now, ParseThing(creator).value);
        }
      case _ =>
        PutKeepsAddressed(env, blobs, pc);
        UploadStepRight(env, t, blobs, BlobsAfter(env, blobs, pc));
    }
  }

  ghost predicate ActsRight(env: Env, s: Sys, a: Action) {
    Moved(s, a).Some? ==> StepsRight(env, s.tables, s.blobs, Moved(s, a).value)
  }

  /** Any action keeps all fossils right exactly when it acts right. */
  lemma ApplyRightIff(env: Env, s: Sys, a: Action)
    requires Inv(env, s) && AllFossilsOk(env, s.tables, s.blobs)
    ensures AllFossilsOk(env, Apply(env, s, a).tables, Apply(env, s, a).blobs) <==> ActsRight(env, s, a)
  {
    ApplyData(env, s, a);
    if Moved(s, a).Some? {
      assert PcOk(env, s.tables, s.blobs, s.procs[a.pid].pc);
      StepRightIff(env, s.tables, s.blobs, s.procs[a.pid].pc);
    }
  }

  ghost predicate RightAt(env: Env, s: Sys, run: seq<Action>, k: nat)
    requires k <= |run|
  {
    AllFossilsOk(env, Exec(env, s, run[..k]).tables, Exec(env, s, run[..k]).blobs)
  }

  ghost predicate ActsRightAt(env: Env, s: Sys, run: seq<Action>, k: nat)
    requires k < |run|
  {
    ActsRight(env, Exec(env, s, run[..k]), run[k])
  }

  lemma RightNext(env: Env, s: Sys, run: seq<Action>, k: nat)
    requires Initial(env, s) && k < |run| && RightAt(env, s, run, k)
    ensures RightAt(env, s, run, k + 1) <==> ActsRightAt(env, s, run, k)
  {
    AlwaysIntact(env, s, run[..k]);
    ExecNext(env, s, run, k);
    ApplyRightIff(env, Exec(env, s, run[..k]), run[k]);
  }

  lemma {:induction false} RightUpTo(env: Env, s: Sys, run: seq<Action>, k: nat)
    requires Initial(env, s) && AllFossilsOk(env, s.tables, s.blobs) && k <= |run|
    requires forall j: nat | j < k :: ActsRightAt(env, s, run, j)
    ensures RightAt(env, s, run, k)
  {
    if k > 0 {
      RightUpTo(env, s, run, k - 1);
      RightNext(env, s, run, k - 1);
    }
  }

  /** In every run, overlapping or not, all fixed records are right at every
      moment exactly when every action of the run acts right. */
  lemma RunRightIff(env: Env, s: Sys, run: seq<Action>)
    requires Initial(env, s) && AllFossilsOk(env, s.tables, s.blobs)
    ensures (forall k: nat | k <= |run| :: RightAt(env, s, run, k)) <==>
            (forall k: nat | k < |run| :: ActsRightAt(env, s, run, k))
  {
    if forall k: nat | k <= |run| :: RightAt(env, s, run, k) {
      forall k: nat | k < |run|
        ensures ActsRightAt(env, s, run, k)
      {
        assert RightAt(env, s, run, k + 1);
        RightNext(env, s, run, k);
      }
    }
    if forall k: nat | k < |run| :: ActsRightAt(env, s, run, k) {
      forall k: nat | k <= |run|
        ensures RightAt(env, s, run, k)
      {
        RightUpTo(env, s, run, k);
      }
    }
  }

  // ---- Frozen records ----

  /** The step about to be taken at `pc` changes the fixed record `l`: it adds
      a version to it, or writes it another digest or another body. */
  predicate Thaws(t: Tables, pc: Pc, id: Uuid, l: Loaded) {
    match pc
    case Appending(rid, vid, _) => rid == id && vid !in t.versions
    case Committing(rid, h, _, vid, body) =>
      rid == id && vid in t.versions && (Some(h) != l.record.hash || body != t.versions[vid].body)
    case _ => false
  }

  lemma StepThawsIff(env: Env, t: Tables, blobs: Blobs, pc: Pc, id: Uuid, l: Loaded)
    requires PcOk(env, t, blobs, pc)
    requires Find(t, id) == Ok(Some(l)) && l.record.state.Fixed?
    ensures Find(TablesAfter(t, pc), id) == Ok(Some(l)) <==> !Thaws(t, pc, id, l)
  {
    FoundRows(t, id);
    match pc {
      case SaveCreate(r, creator, now) =>
        var who := ParseThing(creator).value;
        if CreateTx(t, RecordToRow(r, creator, now), who).Some? {
          CreateKeeps(t, r, creator, now, who, id);
          KeptFind(t, CreateTx(t, RecordToRow(r, creator, now), who).value, id);
        }
      case Appending(rid, vid, row) =>
        if AppendTx(t, vid, row).Some? {
          AppendThawsIff(t, vid, row, id);
        }
      case Committing(rid, h, now, vid, body) =>
        if rid == id {
          CommitThawsIff(t, id, h, now, vid, body, l);
        } else {
          CommitKeepsOthers(t, rid, h, now, vid, body, id);
          KeptFind(t, FixTx(t, rid, HexOf(h), now, vid, body), id);
        }
      case _ =>
    }
  }

  ghost predicate FoundAt(env: Env, s: Sys, run: seq<Action>, k: nat, id: Uuid, l: Loaded)
    requires k <= |run|
  {
    Find(Exec(env, s, run[..k]).tables, id) == Ok(Some(l))
  }

  ghost predicate ThawsAt(env: Env, s: Sys, run: seq<Action>, k: nat, id: Uuid, l: Loaded)
    requires k < |run|
  {
    var n := Exec(env, s, run[..k]);
    Moved(n, run[k]).Some? && Thaws(n.tables, Moved(n, run[k]).value, id, l)
  }

  lemma FoundNext(env: Env, s: Sys, run: seq<Action>, k: nat, id: Uuid, l: Loaded)
    requires Initial(env, s) && k < |run| && FoundAt(env, s, run, k, id, l) && l.record.state.Fixed?
    ensures FoundAt(env, s, run, k + 1, id, l) <==> !ThawsAt(env, s, run, k, id, l)
  {
    var n := Exec(env, s, run[..k]);
    AlwaysIntact(env, s, run[..k]);
    ExecNext(env, s, run, k);
    ApplyData(env, n, run[k]);
    if Moved(n, run[k]).Some? {
      assert PcOk(env, n.tables, n.blobs, n.procs[run[k].pid].pc);
      StepThawsIff(env, n.tables, n.blobs, n.procs[run[k].pid].pc, id, l);
    }
  }

  lemma {:induction false} FoundUpTo(env: Env, s: Sys, run: seq<Action>, i: nat, k: nat, id: Uuid, l: Loaded)
    requires Initial(env, s) && i <= k <= |run| && FoundAt(env, s, run, i, id, l) && l.record.state.Fixed?
    requires forall j | i <= j < k :: !ThawsAt(env, s, run, j, id, l)
    ensures FoundAt(env, s, run, k, id, l)
    decreases k
  {
    if k > i {
      FoundUpTo(env, s, run, i, k - 1, id, l);
      FoundNext(env, s, run, k - 1, id, l);
    }
  }

  /** In every run, overlapping or not, a record found fixed is found the same
      at every later moment exactly when no action from then on thaws it. */
  lemma RunFrozenIff(env: Env, s: Sys, run: seq<Action>, i: nat, id: Uuid, l: Loaded)
    requires Initial(env, s) && i <= |run| && FoundAt(env, s, run, i, id, l) && l.record.state.Fixed?
    ensures (forall k | i <= k <= |run| :: FoundAt(env, s, run, k, id, l)) <==>
            (forall k | i <= k < |run| :: !ThawsAt(env, s, run, k, id, l))
  {
    if forall k | i <= k <= |run| :: FoundAt(env, s, run, k, id, l) {
      forall k | i <= k < |run|
        ensures !ThawsAt(env, s, run, k, id, l)
      {
        assert FoundAt(env, s, run, k + 1, id, l);
        FoundNext(env, s, run, k, id, l);
      }
    }
    if forall k | i <= k < |run| :: !ThawsAt(env, s, run, k, id, l) {
      forall k | i <= k <= |run|
        ensures FoundAt(env, s, run, k, id, l)
      {
        FoundUpTo(env, s, run, i, k, id, l);
      }
    }
  }

  // ---- Payloads ----

  /** Every version whose payload was there stands for one with the same digest. */
  ghost predicate PayloadsKept(env: Env, t: Tables, blobs: Blobs, u: Tables, after: Blobs) {
    forall k | k in t.versions && PayloadHash(env, blobs, t.versions[k].body).Some? ::
      k in u.versions && PayloadHash(env, after, u.versions[k].body) == PayloadHash(env, blobs, t.versions[k].body)
  }

  /** The step about to be taken at `pc` writes a body for another payload, or for none, over one that was there. */
  predicate Redirects(env: Env, t: Tables, blobs: Blobs, pc: Pc) {
    match pc
    case Committing(_, _, _, vid, body) =>
      vid in t.versions && PayloadHash(env, blobs, t.versions[vid].body).Some?
      && PayloadHash(env, blobs, body) != PayloadHash(env, blobs, t.versions[vid].body)
    case _ => false
  }

  lemma StepPayloadsIff(env: Env, t: Tables, blobs: Blobs, pc: Pc)
    requires Addressed(env, blobs) && PcOk(env, t, blobs, pc)
    ensures PayloadsKept(env, t, blobs, TablesAfter(t, pc), BlobsAfter(env, blobs, pc)) <==> !Redirects(env, t, blobs, pc)
  {
    PutKeepsAddressed(env, blobs, pc);
    match pc {
      case SaveCreate(r, creator, now) =>
        var row, who := RecordToRow(r, creator, now), ParseThing(creator).value;
        if CreateTx(t, row, who).Some? {
          assert forall k | k in t.versions :: CreateTx(t, row, who).value.versions[k] == t.versions[k];
        }
      case _ =>
    }
  }

  ghost predicate KeptBetween(env: Env, s: Sys, run: seq<Action>, i: nat, j: nat)
    requires i <= j <= |run|
  {
    var a, b := Exec(env, s, run[..i]), Exec(env, s, run[..j]);
    PayloadsKept(env, a.tables, a.blobs, b.tables, b.blobs)
  }

  ghost predicate RedirectsAt(env: Env, s: Sys, run: seq<Action>, k: nat)
    requires k < |run|
  {
    var n := Exec(env, s, run[..k]);
    Moved(n, run[k]).Some? && Redirects(env, n.tables, n.blobs, Moved(n, run[k]).value)
  }

  lemma KeptNext(env: Env, s: Sys, run: seq<Action>, k: nat)
    requires Initial(env, s) && k < |run|
    ensures KeptBetween(env, s, run, k, k + 1) <==> !RedirectsAt(env, s, run, k)
  {
    var n := Exec(env, s, run[..k]);
    AlwaysIntact(env, s, run[..k]);
    ExecNext(env, s, run, k);
    ApplyData(env, n, run[k]);
    if Moved(n, run[k]).Some? {
      assert PcOk(env, n.tables, n.blobs, n.procs[run[k].pid].pc);
      StepPayloadsIff(env, n.tables, n.blobs, n.procs[run[k].pid].pc);
    }
  }

  lemma {:induction false} KeptUpTo(env: Env, s: Sys, run: seq<Action>, i: nat, j: nat)
    requires Initial(env, s) && i <= j <= |run|
    requires forall k | i <= k < j :: !RedirectsAt(env, s, run, k)
    ensures KeptBetween(env, s, run, i, j)
    decreases j
  {
    if j > i {
      KeptUpTo(env, s, run, i, j - 1);
      KeptNext(env, s, run, j - 1);
    }
  }

  /** In every run, overlapping or not, versions keep their payloads between
      all moments exactly when no action of the run redirects one. */
  lemma RunPayloadsIff(env: Env, s: Sys, run: seq<Action>)
    requires Initial(env, s)
    ensures (forall i: nat, j: nat | i <= j <= |run| :: KeptBetween(env, s, run, i, j)) <==>
            (forall k: nat | k < |run| :: !RedirectsAt(env, s, run, k))
  {
    if forall i: nat, j: nat | i <= j <= |run| :: KeptBetween(env, s, run, i, j) {
      forall k: nat | k < |run|
        ensures !RedirectsAt(env, s, run, k)
      {
        assert KeptBetween(env, s, run, k, k + 1);
        KeptNext(env, s, run, k);
      }
    }
    if forall k: nat | k < |run| :: !RedirectsAt(env, s, run, k) {
      forall i: nat, j: nat | i <= j <= |run|
        ensures KeptBetween(env, s, run, i, j)
      {
        KeptUpTo(env, s, run, i, j);
      }
    }
  }

  /** A sound fix moves a payload, it does not change it. */
  lemma SoundNeverRedirects(env: Env, t: Tables, blobs: Blobs, pc: Pc)
    requires WellFormed(t) && Addressed(env, blobs)
    requires PcOk(env, t, blobs, pc) && FixSound(env, t, blobs, pc)
    ensures !Redirects(env, t, blobs, pc)
  {
    if pc.Committing? {
      TailIsRow(t, pc.id);
      HardenedSamePayload(env, blobs, Tail(t, pc.id).body, pc.h);
    }
  }

  /** Without overlap every version keeps its payload: one whose payload is
      there at one moment stands for a payload of the same digest at every later one. */
  lemma PayloadsAlwaysKept(env: Env, s: Sys, run: seq<Action>, i: nat, j: nat)
    requires Initial(env, s) && AllFossilsOk(env, s.tables, s.blobs)
    requires NoOverlap(env, s, run) && i <= j <= |run|
    ensures KeptBetween(env, s, run, i, j)
  {
    forall k: nat | k < |run|
      ensures !RedirectsAt(env, s, run, k)
    {
      var n := Exec(env, s, run[..k]);
      NoOverlapPrefix(env, s, run, k);
      FossilsAlwaysOk(env, s, run[..k]);
      if Moved(n, run[k]).Some? {
        var pc := n.procs[run[k].pid].pc;
        assert PcOk(env, n.tables, n.blobs, pc) && FixSound(env, n.tables, n.blobs, pc);
        SoundNeverRedirects(env, n.tables, n.blobs, pc);
      }
    }
    KeptUpTo(env, s, run, i, j);
  }
}
