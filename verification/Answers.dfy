/** What a fix request that succeeds is answered. */
module Answers {
  import opened Basics
  import opened Digests
  import opened Core
  import opened Convert
  import opened Tables
  import opened Load
  import opened Storage
  import opened Server
  import opened Integrity
  import opened Fossils
  import opened Frozen

  /** Record `id` is fixed under the digest `h`. */
  ghost predicate FixedWith(t: Tables, id: Uuid, h: Digest) {
    IsFixed(t, id) && t.records[id].contentHash == Some(HexOf(h))
  }

  /** Where a fix request for `id` under `h` can stand. */
  ghost predicate FixStands(t: Tables, pc: Pc, id: Uuid, h: Digest) {
    match pc
    case Finding(rid, reading, next) =>
      && rid == id && !next.CheckPut?
      && (next.CheckFix? ==> next.h == h)
      && (next.Reply? ==> FixedWith(t, id, h) && Caught(t, id, reading))
    case Hashing(rid, k, _) => rid == id && k == h
    case Copying(rid, k, _) => rid == id && k == h
    case Fossilizing(rid, k, _) => rid == id && k == h
    case Assembling(rid, k, _) => rid == id && k == h
    case Committing(rid, k, _, _, _) => rid == id && k == h
    case Done(resp) =>
      resp.Shown? ==>
        FixedWith(t, id, h) && Find(t, id).Ok? && Find(t, id).value.Some?
        && resp.row == RowOf(Find(t, id).value.value.record, Find(t, id).value.value.attribution)
    case _ => false
  }

  /** Where a fix request can stand, whether or not its digest text was accepted. */
  ghost predicate ProcStands(t: Tables, p: Proc) {
    p.req.FixRecord? ==>
      match ParseHexApi(p.req.contentHash)
      case None => p.pc in {Done(BadRequest), Done(Aborted)}
      case Some(h) => FixStands(t, p.pc, p.req.id, h)
  }

  ghost predicate FixesStand(t: Tables, procs: map<nat, Proc>) {
    forall p | p in procs :: ProcStands(t, procs[p])
  }

  lemma StandsKept(t: Tables, u: Tables, pc: Pc, id: Uuid, h: Digest)
    requires FixStands(t, pc, id, h)
    requires IsFixed(t, id) ==> Kept(t, u, id)
    ensures FixStands(u, pc, id, h)
  {
    if IsFixed(t, id) {
      KeptFind(t, u, id);
    }
  }

  lemma ReplyStands(env: Env, t: Tables, blobs: Blobs, id: Uuid, reading: Reading, mint: Mint, h: Digest)
    requires FixedWith(t, id, h) && Caught(t, id, reading) && Find(t, id).Ok?
    ensures FixStands(t, PcAfter(env, t, blobs, Finding(id, reading, Reply), mint), id, h)
  {
    CaughtStep(t, id, reading);
  }

  lemma FindingStands(env: Env, t: Tables, blobs: Blobs, id: Uuid, reading: Reading, mint: Mint, h: Digest)
    ensures FixStands(t, PcAfter(env, t, blobs, Finding(id, reading, CheckFix(h)), mint), id, h)
  {
  }

  lemma AssemblingStands(env: Env, t: Tables, blobs: Blobs, id: Uuid, reading: Reading, mint: Mint, h: Digest)
    ensures FixStands(t, PcAfter(env, t, blobs, Assembling(id, h, reading), mint), id, h)
  {
  }

  lemma StandsStep(env: Env, t: Tables, blobs: Blobs, pc: Pc, mint: Mint, id: Uuid, h: Digest)
    requires FixStands(t, pc, id, h) && PcOk(env, t, blobs, pc)
    requires Find(t, id).Ok?
    ensures FixStands(TablesAfter(t, pc), PcAfter(env, t, blobs, pc, mint), id, h)
  {
    match pc {
      case Finding(_, reading, Reply) => ReplyStands(env, t, blobs, id, reading, mint, h);
      case Finding(_, reading, CheckFix(_)) => FindingStands(env, t, blobs, id, reading, mint, h);
      case Assembling(_, _, reading) => AssemblingStands(env, t, blobs, id, reading, mint, h);
      case _ =>
    }
  }

  /** A request that takes a step. */
  lemma MoverStands(env: Env, t: Tables, blobs: Blobs, p: Proc, mint: Mint)
    requires ProcStands(t, p) && PcOk(env, t, blobs, p.pc)
    requires p.req.FixRecord? ==> Find(t, p.req.id).Ok?
    ensures ProcStands(TablesAfter(t, p.pc), p.(pc := PcAfter(env, t, blobs, p.pc, mint)))
  {
    if p.req.FixRecord? && ParseHexApi(p.req.contentHash).Some? {
      StandsStep(env, t, blobs, p.pc, mint, p.req.id, ParseHexApi(p.req.contentHash).value);
    }
  }

  /** A request while another one takes a step. */
  lemma WatcherStands(t: Tables, u: Tables, p: Proc)
    requires ProcStands(t, p)
    requires p.req.FixRecord? && IsFixed(t, p.req.id) ==> Kept(t, u, p.req.id)
    ensures ProcStands(u, p)
  {
    if p.req.FixRecord? && ParseHexApi(p.req.contentHash).Some? {
      StandsKept(t, u, p.pc, p.req.id, ParseHexApi(p.req.contentHash).value);
    }
  }

  lemma StepKeepsStanding(env: Env, s: Sys, pid: nat, mint: Mint, p: nat)
    requires Inv(env, s) && Sound(env, s) && Apart(s.procs)
    requires FixesStand(s.tables, s.procs) && pid in s.procs && p in s.procs
    ensures var n := Apply(env, s, Step(pid, mint)); ProcStands(n.tables, n.procs[p])
  {
    var req := s.procs[p].req;
    if req.FixRecord? {
      FindSucceeds(s.tables, req.id);
      if IsFixed(s.tables, req.id) {
        ApplyKeepsFixed(env, s, Step(pid, mint), req.id);
      }
    }
    if p == pid {
      assert PcOk(env, s.tables, s.blobs, s.procs[p].pc);
      MoverStands(env, s.tables, s.blobs, s.procs[p], mint);
    } else {
      WatcherStands(s.tables, Apply(env, s, Step(pid, mint)).tables, s.procs[p]);
    }
  }

  lemma ApplyKeepsStanding(env: Env, s: Sys, a: Action)
    requires Inv(env, s) && Sound(env, s) && Apart(s.procs)
    requires FixesStand(s.tables, s.procs)
    ensures FixesStand(Apply(env, s, a).tables, Apply(env, s, a).procs)
  {
    if a.Step? && a.pid in s.procs {
      forall p | p in s.procs
        ensures ProcStands(Apply(env, s, a).tables, Apply(env, s, a).procs[p])
      {
        StepKeepsStanding(env, s, a.pid, a.mint, p);
      }
    }
  }

  lemma {:induction false} FixesAlwaysStand(env: Env, s: Sys, run: seq<Action>)
    requires Initial(env, s) && AllFossilsOk(env, s.tables, s.blobs)
    requires NoOverlap(env, s, run)
    ensures FixesStand(Exec(env, s, run).tables, Exec(env, s, run).procs)
    decreases |run|
  {
    if run != [] {
      var shorter := run[..|run| - 1];
      NoOverlapPrefix(env, s, run, |run| - 1);
      FixesAlwaysStand(env, s, shorter);
      FossilsAlwaysOk(env, s, shorter);
      ApplyKeepsStanding(env, Exec(env, s, shorter), run[|run| - 1]);
    }
  }

  /** A fix that is answered with a record was answered with the record that is
      stored: fixed under exactly the digest the caller claimed, which is the
      digest of its trailing payload. */
  lemma FixAnswersTruly(env: Env, s: Sys, run: seq<Action>, pid: nat)
    requires Initial(env, s) && AllFossilsOk(env, s.tables, s.blobs)
    requires NoOverlap(env, s, run)
    requires pid in Exec(env, s, run).procs
    requires Exec(env, s, run).procs[pid].req.FixRecord? && Exec(env, s, run).procs[pid].pc.Done?
    requires Exec(env, s, run).procs[pid].pc.resp.Shown?
    ensures var n := Exec(env, s, run);
            var req, row := n.procs[pid].req, n.procs[pid].pc.resp.row;
            exists l: Loaded :: Find(n.tables, req.id) == Ok(Some(l)) && row == RowOf(l.record, l.attribution)
                        && l.record.state.Fixed? && l.record.hash == ParseHexApi(req.contentHash)
                        && RightlyFixed(env, n.blobs, l.record)
  {
    var n := Exec(env, s, run);
    var req := n.procs[pid].req;
    FixesAlwaysStand(env, s, run);
    var h := ParseHexApi(req.contentHash).value;
    assert ProcStands(n.tables, n.procs[pid]);
    assert FixStands(n.tables, n.procs[pid].pc, req.id, h);
    var l := Find(n.tables, req.id).value.value;
    FoundRows(n.tables, req.id);
    StateLiteralRoundTrip(Fixed, "fixed");
    StateLiteralRoundTrip(l.record.state, "fixed");
    ParseOfDisplay(h);
    FixedRecordIntegrity(env, s, run, req.id, l);
  }
}
