/** What uploads are answered in every interleaving, and which of them writes. */
module Uploads {
  import opened Basics
  import opened Digests
  import opened Tables
  import opened Storage
  import opened Server
  import opened Integrity

  /** An upload that is taken: storage is configured, there is something in it, and at most 10 MiB. */
  predicate Taken(env: Env, bytes: Bytes) {
    env.hasStorage && 0 < |bytes| <= 10485760
  }

  function Refusal(env: Env, bytes: Bytes): Response {
    if !env.hasStorage then Internal else if bytes == [] then BadRequest else PayloadTooLarge
  }

  /** The answer names the key, the size and the digest of `bytes`, and the key holds a blob of that digest. */
  ghost predicate NamesStored(env: Env, blobs: Blobs, bytes: Bytes, key: string, size: nat, sha256: string) {
    && key == "/assets/" + sha256 && sha256 == HexOf(env.sha(bytes)) && size == |bytes|
    && key in blobs && env.sha(blobs[key]) == env.sha(bytes)
  }

  /** Where an upload can stand. */
  ghost predicate UploadStands(env: Env, blobs: Blobs, p: Proc) {
    p.req.PostAsset? ==>
      var bytes := p.req.bytes;
      match p.pc
      case Uploading(sent) => sent == bytes && Taken(env, bytes)
      case Done(Stored(key, size, sha256, _)) => Taken(env, bytes) && NamesStored(env, blobs, bytes, key, size, sha256)
      case Done(resp) => if Taken(env, bytes) then resp.Aborted? else resp == Refusal(env, bytes)
      case _ => false
  }

  ghost predicate AllStand(env: Env, s: Sys) {
    forall p | p in s.procs :: UploadStands(env, s.blobs, s.procs[p])
  }

  /** The step that ends an upload. */
  lemma UploadStep(env: Env, t: Tables, blobs: Blobs, p: Proc, mint: Mint)
    requires Addressed(env, blobs) && UploadStands(env, blobs, p)
    ensures UploadStands(env, BlobsAfter(env, blobs, p.pc), p.(pc := PcAfter(env, t, blobs, p.pc, mint)))
  {
    if p.req.PostAsset? && p.pc.Uploading? {
      var h := env.sha(p.req.bytes);
      assert AssetKey(h) in blobs ==> env.sha(blobs[AssetKey(h)]) == h;
    }
  }

  lemma UploadStays(env: Env, blobs: Blobs, after: Blobs, p: Proc)
    requires UploadStands(env, blobs, p) && Grows(blobs, after)
    ensures UploadStands(env, after, p)
  {
  }

  lemma UploadBegins(env: Env, blobs: Blobs, req: Request, mint: Mint)
    ensures UploadStands(env, blobs, Proc(req, Begin(env, req, mint)))
  {
  }

  lemma ApplyStands(env: Env, s: Sys, a: Action)
    requires Addressed(env, s.blobs) && AllStand(env, s) && Grows(s.blobs, Apply(env, s, a).blobs)
    ensures AllStand(env, Apply(env, s, a))
  {
    var n := Apply(env, s, a);
    forall p | p in n.procs
      ensures UploadStands(env, n.blobs, n.procs[p])
    {
      if p in s.procs {
        UploadStays(env, s.blobs, n.blobs, s.procs[p]);
      }
      if a.Start? {
        UploadBegins(env, n.blobs, a.req, a.mint);
      }
      if a.Step? && p == a.pid && p in s.procs {
        UploadStep(env, s.tables, s.blobs, s.procs[p], a.mint);
      }
    }
  }

  lemma {:induction false} AlwaysStand(env: Env, s: Sys, run: seq<Action>)
    requires Initial(env, s)
    ensures AllStand(env, Exec(env, s, run))
    decreases |run|
  {
    if run != [] {
      AlwaysStand(env, s, run[..|run| - 1]);
      AlwaysIntact(env, s, run[..|run| - 1]);
      ApplyOk(env, Exec(env, s, run[..|run| - 1]), run[|run| - 1]);
      ApplyStands(env, Exec(env, s, run[..|run| - 1]), run[|run| - 1]);
    }
  }

  /** In every run, an upload that has ended and was not cut off was refused
      exactly when it is not taken, and for the right reason; one that was
      answered names the key, size and digest of its bytes, and from then on the
      key holds a blob of that digest. */
  lemma UploadAnswersTruly(env: Env, s: Sys, run: seq<Action>, i: nat, pid: nat, bytes: Bytes, resp: Response)
    requires Initial(env, s) && i <= |run|
    requires pid in Exec(env, s, run[..i]).procs && Exec(env, s, run[..i]).procs[pid] == Proc(PostAsset(bytes), Done(resp))
    requires !resp.Aborted?
    ensures !Taken(env, bytes) ==> resp == Refusal(env, bytes)
    ensures Taken(env, bytes) ==>
              resp.Stored? && NamesStored(env, Exec(env, s, run).blobs, bytes, resp.key, resp.size, resp.sha256)
  {
    AlwaysStand(env, s, run[..i]);
    BetweenMoments(env, s, run, i, |run|);
    assert run[..|run|] == run;
    assert UploadStands(env, Exec(env, s, run[..i]).blobs, Exec(env, s, run[..i]).procs[pid]);
  }

  // ---- Which upload writes ----

  /** Action `k` of the run is the step of upload `pid` that was answered with `outcome` for `key`. */
  ghost predicate EndsAt(env: Env, s: Sys, run: seq<Action>, k: nat, pid: nat, key: string, outcome: PutOutcome)
    requires k < |run|
  {
    var before, after := Exec(env, s, run[..k]).blobs, Exec(env, s, run[..k + 1]).blobs;
    && run[k].Step? && run[k].pid == pid
    && (outcome.Wrote? <==> key !in before) && key in after
  }

  lemma EndsNow(env: Env, s: Sys, run: seq<Action>, pid: nat, resp: Response)
    requires run != [] && run[|run| - 1].Step? && run[|run| - 1].pid == pid
    requires var before := Exec(env, s, run[..|run| - 1]); pid in before.procs && before.procs[pid].pc.Uploading?
    requires resp.Stored? && Exec(env, s, run).procs[pid].pc == Done(resp)
    ensures EndsAt(env, s, run, |run| - 1, pid, resp.key, resp.outcome)
  {
    assert run[..|run| - 1 + 1] == run;
  }

  lemma EndsLonger(env: Env, s: Sys, run: seq<Action>, k: nat, pid: nat, key: string, outcome: PutOutcome)
    requires k + 1 < |run| && EndsAt(env, s, run[..|run| - 1], k, pid, key, outcome)
    ensures EndsAt(env, s, run, k, pid, key, outcome)
  {
    var shorter := run[..|run| - 1];
    assert shorter[..k] == run[..k] && shorter[..k + 1] == run[..k + 1];
  }

  /** Only the step of an upload gets it an answer that something is stored. */
  lemma StoredByStep(env: Env, s: Sys, a: Action, pid: nat)
    requires pid in Apply(env, s, a).procs && Apply(env, s, a).procs[pid].pc.Done? && Apply(env, s, a).procs[pid].pc.resp.Stored?
    ensures pid in s.procs
    ensures s.procs[pid].pc == Apply(env, s, a).procs[pid].pc || (a.Step? && a.pid == pid && s.procs[pid].pc.Uploading?)
  {
  }

  /** In every run, an upload is told that it wrote exactly when its key was
      free the moment before its step; after the step the key is taken. */
  lemma {:induction false} OutcomeIsTrue(env: Env, s: Sys, run: seq<Action>, pid: nat, resp: Response)
    requires s.procs == map[] && pid in Exec(env, s, run).procs
    requires resp.Stored? && Exec(env, s, run).procs[pid].pc == Done(resp)
    ensures exists k: nat :: k < |run| && EndsAt(env, s, run, k, pid, resp.key, resp.outcome)
    decreases |run|
  {
    var shorter := run[..|run| - 1];
    var before := Exec(env, s, shorter);
    StoredByStep(env, before, run[|run| - 1], pid);
    if before.procs[pid].pc == Done(resp) {
      OutcomeIsTrue(env, s, shorter, pid, resp);
      var k: nat :| k < |shorter| && EndsAt(env, s, shorter, k, pid, resp.key, resp.outcome);
      EndsLonger(env, s, run, k, pid, resp.key, resp.outcome);
    } else {
      EndsNow(env, s, run, pid, resp);
    }
  }

  lemma WritesOnce(env: Env, s: Sys, run: seq<Action>, j: nat, k: nat, p: nat, q: nat, key: string)
    requires Initial(env, s) && j <= k < |run|
    requires EndsAt(env, s, run, j, p, key, Wrote) && EndsAt(env, s, run, k, q, key, Wrote)
    ensures p == q
  {
    if j < k {
      BetweenMoments(env, s, run, j + 1, k);
    }
  }

  /** Of all uploads answered for one key at most one is told that it wrote. */
  lemma OneWriter(env: Env, s: Sys, run: seq<Action>, p: nat, q: nat, a: Response, b: Response)
    requires Initial(env, s) && p in Exec(env, s, run).procs && q in Exec(env, s, run).procs
    requires a.Stored? && Exec(env, s, run).procs[p].pc == Done(a) && a.outcome.Wrote?
    requires b.Stored? && Exec(env, s, run).procs[q].pc == Done(b) && b.outcome.Wrote?
    requires a.key == b.key
    ensures p == q
  {
    OutcomeIsTrue(env, s, run, p, a);
    OutcomeIsTrue(env, s, run, q, b);
    var j: nat :| j < |run| && EndsAt(env, s, run, j, p, a.key, Wrote);
    var k: nat :| k < |run| && EndsAt(env, s, run, k, q, b.key, Wrote);
    if j <= k {
      WritesOnce(env, s, run, j, k, p, q, a.key);
    } else {
      WritesOnce(env, s, run, k, j, q, p, a.key);
    }
  }
}
