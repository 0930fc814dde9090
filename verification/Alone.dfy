/** Requests that run undisturbed, from any well-formed state and beside any
    other requests that stand still: what each is answered, and what it leaves. */
module Alone {
  import opened Basics
  import opened Digests
  import opened Core
  import opened Things
  import opened Convert
  import opened Tables
  import opened Load
  import opened Storage
  import opened Server
  import opened Fossils
  import opened Refinement

  // ---- Runs of one request ----

  /** The steps of request `pid`, one for each element of `mints`. */
  function Own(pid: nat, mints: seq<Mint>): (run: seq<Action>)
    ensures |run| == |mints|
  {
    seq(|mints|, i requires 0 <= i < |mints| => Step(pid, mints[i]))
  }

  lemma ExecOne(env: Env, s: Sys, a: Action)
    ensures Exec(env, s, [a]) == Apply(env, s, a)
  {
    assert [a][..0] == [];
  }

  lemma OwnSplit(env: Env, s: Sys, pid: nat, mints: seq<Mint>, k: nat)
    requires k <= |mints|
    ensures Exec(env, s, Own(pid, mints)) == Exec(env, Exec(env, s, Own(pid, mints[..k])), Own(pid, mints[k..]))
  {
    assert Own(pid, mints) == Own(pid, mints[..k]) + Own(pid, mints[k..]);
    ExecSplit(env, s, Own(pid, mints[..k]), Own(pid, mints[k..]));
  }

  /** Request `pid` at another place, everything else as it was. */
  function With(s: Sys, pid: nat, pc: Pc): Sys
    requires pid in s.procs
  {
    s.(procs := s.procs[pid := s.procs[pid].(pc := pc)])
  }

  lemma OwnFirst(env: Env, s: Sys, pid: nat, mints: seq<Mint>)
    requires mints != []
    ensures Exec(env, s, Own(pid, mints)) == Exec(env, Apply(env, s, Step(pid, mints[0])), Own(pid, mints[1..]))
  {
    OwnSplit(env, s, pid, mints, 1);
    assert Own(pid, mints[..1]) == [Step(pid, mints[0])];
    ExecOne(env, s, Step(pid, mints[0]));
  }

  /** The step at `pc` leaves the tables `u` and the blobs `after`, and goes on to `next`. */
  predicate Leaves(env: Env, t: Tables, blobs: Blobs, pc: Pc, mint: Mint, u: Tables, after: Blobs, next: Pc) {
    TablesAfter(t, pc) == u && BlobsAfter(env, blobs, pc) == after && PcAfter(env, t, blobs, pc, mint) == next
  }

  /** At `pc` a request only reads, and goes on to `next`. */
  predicate GoesTo(env: Env, t: Tables, blobs: Blobs, pc: Pc, mint: Mint, next: Pc) {
    Leaves(env, t, blobs, pc, mint, t, blobs, next)
  }

  /** A step that leaves the tables `u` and the blobs `after`. */
  lemma OwnWrites(env: Env, s: Sys, pid: nat, mints: seq<Mint>, u: Tables, after: Blobs, next: Pc)
    requires pid in s.procs && mints != []
    requires Leaves(env, s.tables, s.blobs, s.procs[pid].pc, mints[0], u, after, next)
    ensures Exec(env, s, Own(pid, mints)) ==
            Exec(env, Sys(u, after, s.procs[pid := s.procs[pid].(pc := next)]), Own(pid, mints[1..]))
  {
    OwnFirst(env, s, pid, mints);
  }

  lemma OwnQuiet(env: Env, s: Sys, pid: nat, mints: seq<Mint>, next: Pc)
    requires pid in s.procs && mints != [] && GoesTo(env, s.tables, s.blobs, s.procs[pid].pc, mints[0], next)
    ensures Exec(env, s, Own(pid, mints)) == Exec(env, With(s, pid, next), Own(pid, mints[1..]))
  {
    OwnFirst(env, s, pid, mints);
  }

  lemma OwnTwo(env: Env, s: Sys, pid: nat, mints: seq<Mint>, p1: Pc, p2: Pc)
    requires pid in s.procs && |mints| >= 2
    requires GoesTo(env, s.tables, s.blobs, s.procs[pid].pc, mints[0], p1)
    requires GoesTo(env, s.tables, s.blobs, p1, mints[1], p2)
    ensures Exec(env, s, Own(pid, mints)) == Exec(env, With(s, pid, p2), Own(pid, mints[2..]))
  {
    var s1, rest := With(s, pid, p1), mints[1..];
    OwnQuiet(env, s, pid, mints, p1);
    assert s1.tables == s.tables && s1.blobs == s.blobs && s1.procs[pid].pc == p1 && rest[0] == mints[1];
    OwnQuiet(env, s1, pid, rest, p2);
    assert With(s1, pid, p2) == With(s, pid, p2) && rest[1..] == mints[2..];
  }

  lemma OwnThree(env: Env, s: Sys, pid: nat, mints: seq<Mint>, p1: Pc, p2: Pc, p3: Pc)
    requires pid in s.procs && |mints| >= 3
    requires GoesTo(env, s.tables, s.blobs, s.procs[pid].pc, mints[0], p1)
    requires GoesTo(env, s.tables, s.blobs, p1, mints[1], p2)
    requires GoesTo(env, s.tables, s.blobs, p2, mints[2], p3)
    ensures Exec(env, s, Own(pid, mints)) == Exec(env, With(s, pid, p3), Own(pid, mints[3..]))
  {
    var s2, rest := With(s, pid, p2), mints[2..];
    OwnTwo(env, s, pid, mints, p1, p2);
    assert s2.tables == s.tables && s2.blobs == s.blobs && s2.procs[pid].pc == p2 && rest[0] == mints[2];
    OwnQuiet(env, s2, pid, rest, p3);
    assert With(s2, pid, p3) == With(s, pid, p3) && rest[1..] == mints[3..];
  }

  /** A request that has ended stays as it is. */
  lemma {:induction false} OwnDone(env: Env, s: Sys, pid: nat, mints: seq<Mint>)
    requires pid in s.procs && s.procs[pid].pc.Done?
    ensures Exec(env, s, Own(pid, mints)) == s
    decreases |mints|
  {
    if mints != [] {
      OwnFirst(env, s, pid, mints);
      assert Apply(env, s, Step(pid, mints[0])) == s;
      OwnDone(env, s, pid, mints[1..]);
    }
  }

  /** A request that ends with its next step. */
  lemma EndsInOne(env: Env, s: Sys, pid: nat, mints: seq<Mint>, u: Tables, after: Blobs, resp: Response)
    requires pid in s.procs && mints != []
    requires Leaves(env, s.tables, s.blobs, s.procs[pid].pc, mints[0], u, after, Done(resp))
    ensures Exec(env, s, Own(pid, mints)) == Sys(u, after, s.procs[pid := s.procs[pid].(pc := Done(resp))])
  {
    OwnWrites(env, s, pid, mints, u, after, Done(resp));
    OwnDone(env, Sys(u, after, s.procs[pid := s.procs[pid].(pc := Done(resp))]), pid, mints[1..]);
  }

  /** A request that only reads with its next step and ends with the one after. */
  lemma EndsInTwo(env: Env, s: Sys, pid: nat, mints: seq<Mint>, second: Pc, u: Tables, resp: Response)
    requires pid in s.procs && |mints| >= 2 && GoesTo(env, s.tables, s.blobs, s.procs[pid].pc, mints[0], second)
    requires Leaves(env, s.tables, s.blobs, second, mints[1], u, s.blobs, Done(resp))
    ensures Exec(env, s, Own(pid, mints)) == Sys(u, s.blobs, s.procs[pid := s.procs[pid].(pc := Done(resp))])
  {
    var s1, rest := With(s, pid, second), mints[1..];
    OwnQuiet(env, s, pid, mints, second);
    assert s1.tables == s.tables && s1.blobs == s.blobs && s1.procs[pid].pc == second && rest[0] == mints[1];
    EndsInOne(env, s1, pid, rest, u, s.blobs, resp);
  }

  // ---- The three reads ----

  lemma FindMissing(env: Env, s: Sys, pid: nat, id: Uuid, next: Next, mints: seq<Mint>)
    requires pid in s.procs && s.procs[pid].pc == Finding(id, ReadRecord, next)
    requires id !in s.tables.records && mints != []
    ensures Exec(env, s, Own(pid, mints)) == With(s, pid, Done(NotFound))
  {
    OwnFirst(env, s, pid, mints);
    assert Apply(env, s, Step(pid, mints[0])) == With(s, pid, Done(NotFound));
    OwnDone(env, With(s, pid, Done(NotFound)), pid, mints[1..]);
  }

  /** Three steps find the record. */
  lemma FindUndisturbed(env: Env, s: Sys, pid: nat, id: Uuid, next: Next, mints: seq<Mint>, l: Loaded)
    requires pid in s.procs && s.procs[pid].pc == Finding(id, ReadRecord, next)
    requires Find(s.tables, id) == Ok(Some(l)) && |mints| >= 3
    ensures Exec(env, s, Own(pid, mints)) ==
            Exec(env, With(s, pid, Resume(env, id, l, next, mints[2])), Own(pid, mints[3..]))
  {
    var row := IntoPersisted(s.tables.records[id], id).value;
    OwnThree(env, s, pid, mints, Finding(id, ReadVersions(row), next),
             Finding(id, ReadEdge(row, Chain(s.tables.versions, id)), next), Resume(env, id, l, next, mints[2]));
  }

  lemma AssembleUndisturbed(env: Env, s: Sys, pid: nat, id: Uuid, h: Digest, mints: seq<Mint>, l: Loaded)
    requires pid in s.procs && s.procs[pid].pc == Assembling(id, h, ReadRecord)
    requires Find(s.tables, id) == Ok(Some(l)) && |mints| >= 3
    ensures Exec(env, s, Own(pid, mints)) ==
            Exec(env, With(s, pid, Prepare(id, h, l, mints[2])), Own(pid, mints[3..]))
  {
    var row := IntoPersisted(s.tables.records[id], id).value;
    OwnThree(env, s, pid, mints, Assembling(id, h, ReadVersions(row)),
             Assembling(id, h, ReadEdge(row, Chain(s.tables.versions, id))), Prepare(id, h, l, mints[2]));
  }

  /** A request that only has to answer shows the record. */
  lemma Replies(env: Env, s: Sys, pid: nat, id: Uuid, mints: seq<Mint>, l: Loaded)
    requires pid in s.procs && s.procs[pid].pc == Finding(id, ReadRecord, Reply)
    requires Find(s.tables, id) == Ok(Some(l)) && |mints| >= 3
    ensures Exec(env, s, Own(pid, mints)) == With(s, pid, Done(Shown(RowOf(l.record, l.attribution))))
  {
    FindUndisturbed(env, s, pid, id, Reply, mints, l);
    OwnDone(env, With(s, pid, Done(Shown(RowOf(l.record, l.attribution)))), pid, mints[3..]);
  }

  // ---- A request from its arrival on ----

  /** The request `req` arrives as `pid` and takes its own steps. */
  function Served(env: Env, s: Sys, pid: nat, req: Request, arrival: Mint, mints: seq<Mint>): Sys {
    Exec(env, s, [Start(pid, req, arrival)] + Own(pid, mints))
  }

  lemma ServedFrom(env: Env, s: Sys, pid: nat, req: Request, arrival: Mint, mints: seq<Mint>)
    requires pid !in s.procs
    ensures Served(env, s, pid, req, arrival, mints) ==
            Exec(env, s.(procs := s.procs[pid := Proc(req, Begin(env, req, arrival))]), Own(pid, mints))
  {
    ExecSplit(env, s, [Start(pid, req, arrival)], Own(pid, mints));
    ExecOne(env, s, Start(pid, req, arrival));
  }

  /** The request has been answered with `resp`, and no other request has moved. */
  ghost predicate Answered(s: Sys, n: Sys, pid: nat, req: Request, resp: Response) {
    n.procs == s.procs[pid := Proc(req, Done(resp))]
  }

  /** Nothing stored has changed. */
  ghost predicate Untouched(s: Sys, n: Sys) {
    n.tables == s.tables && n.blobs == s.blobs
  }

  lemma ServedAtOnce(env: Env, s: Sys, pid: nat, req: Request, arrival: Mint, mints: seq<Mint>, resp: Response)
    requires pid !in s.procs && Begin(env, req, arrival) == Done(resp)
    ensures var n := Served(env, s, pid, req, arrival, mints); Answered(s, n, pid, req, resp) && Untouched(s, n)
  {
    ServedFrom(env, s, pid, req, arrival, mints);
    OwnDone(env, s.(procs := s.procs[pid := Proc(req, Done(resp))]), pid, mints);
  }

  /** A request that ends with its first step. */
  lemma ServedInOne(env: Env, s: Sys, pid: nat, req: Request, arrival: Mint, mints: seq<Mint>, first: Pc, after: Blobs, resp: Response)
    requires pid !in s.procs && mints != [] && Begin(env, req, arrival) == first
    requires Leaves(env, s.tables, s.blobs, first, mints[0], s.tables, after, Done(resp))
    ensures Served(env, s, pid, req, arrival, mints) == Sys(s.tables, after, s.procs[pid := Proc(req, Done(resp))])
  {
    ServedFrom(env, s, pid, req, arrival, mints);
    EndsInOne(env, s.(procs := s.procs[pid := Proc(req, first)]), pid, mints, s.tables, after, resp);
  }

  // ---- GET ----

  lemma GetFound(env: Env, s: Sys, pid: nat, id: Uuid, arrival: Mint, mints: seq<Mint>, l: Loaded)
    requires Find(s.tables, id) == Ok(Some(l)) && pid !in s.procs && |mints| >= 3
    ensures Served(env, s, pid, GetRecord(id), arrival, mints) ==
            s.(procs := s.procs[pid := Proc(GetRecord(id), Done(Shown(RowOf(l.record, l.attribution))))])
  {
    ServedFrom(env, s, pid, GetRecord(id), arrival, mints);
    Replies(env, s.(procs := s.procs[pid := Proc(GetRecord(id), Finding(id, ReadRecord, Reply))]), pid, id, mints, l);
  }

  /** A GET shows the record if it is there, and changes nothing. */
  lemma GetAlone(env: Env, s: Sys, pid: nat, id: Uuid, arrival: Mint, mints: seq<Mint>)
    requires WellFormed(s.tables) && pid !in s.procs && |mints| >= 3
    ensures var n := Served(env, s, pid, GetRecord(id), arrival, mints);
            && Untouched(s, n)
            && (id in Abs(s.tables) ==>
                  Answered(s, n, pid, GetRecord(id), Shown(RowOf(Abs(s.tables)[id].record, Abs(s.tables)[id].attribution))))
            && (id !in Abs(s.tables) ==> Answered(s, n, pid, GetRecord(id), NotFound))
  {
    AbsHoldsAll(s.tables, id);
    if id in s.tables.records {
      GetFound(env, s, pid, id, arrival, mints, Abs(s.tables)[id]);
    } else {
      UnknownId(env, s, pid, GetRecord(id), id, Reply, arrival, mints);
    }
  }

  /** A request for a record that is not there. */
  lemma UnknownId(env: Env, s: Sys, pid: nat, req: Request, id: Uuid, next: Next, arrival: Mint, mints: seq<Mint>)
    requires pid !in s.procs && mints != [] && id !in s.tables.records
    requires Begin(env, req, arrival) == Finding(id, ReadRecord, next)
    ensures var n := Served(env, s, pid, req, arrival, mints); Answered(s, n, pid, req, NotFound) && Untouched(s, n)
  {
    ServedFrom(env, s, pid, req, arrival, mints);
    FindMissing(env, s.(procs := s.procs[pid := Proc(req, Finding(id, ReadRecord, next))]), pid, id, next, mints);
  }

  // ---- POST asset ----

  lemma Uploads(env: Env, s: Sys, pid: nat, bytes: Bytes, arrival: Mint, mints: seq<Mint>)
    requires pid !in s.procs && mints != []
    requires env.hasStorage && 0 < |bytes| <= 10485760
    ensures var n := Served(env, s, pid, PostAsset(bytes), arrival, mints);
            var key := "/assets/" + HexOf(env.sha(bytes));
            && n.tables == s.tables && n.blobs == (if key in s.blobs then s.blobs else s.blobs[key := bytes])
            && Answered(s, n, pid, PostAsset(bytes),
                        Stored(key, |bytes|, HexOf(env.sha(bytes)), if key in s.blobs then AlreadyThere else Wrote))
  {
    var key := "/assets/" + HexOf(env.sha(bytes));
    ServedInOne(env, s, pid, PostAsset(bytes), arrival, mints, Uploading(bytes),
                if key in s.blobs then s.blobs else s.blobs[key := bytes],
                Stored(key, |bytes|, HexOf(env.sha(bytes)), if key in s.blobs then AlreadyThere else Wrote));
  }

  /** An upload is refused when storage is not configured, when it is empty and
      when it is above 10 MiB, and then changes nothing; otherwise it is stored
      under the key of its digest unless something is there, and the answer says which. */
  lemma AssetAlone(env: Env, s: Sys, pid: nat, bytes: Bytes, arrival: Mint, mints: seq<Mint>)
    requires pid !in s.procs && mints != []
    ensures var n := Served(env, s, pid, PostAsset(bytes), arrival, mints);
            var key := "/assets/" + HexOf(env.sha(bytes));
            if env.hasStorage && 0 < |bytes| <= 10485760 then
              && n.tables == s.tables && n.blobs == (if key in s.blobs then s.blobs else s.blobs[key := bytes])
              && Answered(s, n, pid, PostAsset(bytes),
                          Stored(key, |bytes|, HexOf(env.sha(bytes)), if key in s.blobs then AlreadyThere else Wrote))
            else
              Untouched(s, n) && Answered(s, n, pid, PostAsset(bytes),
                if !env.hasStorage then Internal else if bytes == [] then BadRequest else PayloadTooLarge)
  {
    if env.hasStorage && 0 < |bytes| <= 10485760 {
      Uploads(env, s, pid, bytes, arrival, mints);
    } else {
      ServedAtOnce(env, s, pid, PostAsset(bytes), arrival, mints,
        if !env.hasStorage then Internal else if bytes == [] then BadRequest else PayloadTooLarge);
    }
  }

  // ---- PUT ----

  /** A PUT of `input` would append version `vid`. */
  ghost predicate Appendable(env: Env, t: Tables, id: Uuid, input: BodyInput, vid: Uuid) {
    && id in Abs(t) && Abs(t)[id].record.state.Mutable?
    && (exists body :: Means(env, input, body))
    && vid !in t.versions
  }

  /** Why a PUT that does not append is refused. */
  ghost function PutRefusal(env: Env, t: Tables, id: Uuid, input: BodyInput): Response {
    if id !in Abs(t) then NotFound
    else if !Abs(t)[id].record.state.Mutable? then StateConflict(Abs(t)[id].record.state)
    else if !exists body :: Means(env, input, body) then BadRequest
    else DbFailed(Surreal)
  }

  /** Where a PUT goes with the record it has found. */
  lemma ResumePut(env: Env, id: Uuid, l: Loaded, input: BodyInput, mint: Mint)
    ensures forall body | l.record.state.Mutable? && Means(env, input, body) ::
              Resume(env, id, l, CheckPut(input), mint) == Appending(id, mint.vid, VersionRow(id, body, mint.now))
    ensures !l.record.state.Mutable? ==> Resume(env, id, l, CheckPut(input), mint) == Done(StateConflict(l.record.state))
    ensures l.record.state.Mutable? && !(exists body :: Means(env, input, body)) ==>
              Resume(env, id, l, CheckPut(input), mint) == Done(BadRequest)
  {
    if IntoBody(env, input).Some? {
      IntoBodyIff(env, input, IntoBody(env, input).value);
    }
  }

  lemma PutReads(env: Env, s: Sys, pid: nat, id: Uuid, input: BodyInput, arrival: Mint, mints: seq<Mint>, l: Loaded, next: Pc)
    requires pid !in s.procs && |mints| >= 3 && Find(s.tables, id) == Ok(Some(l))
    requires Resume(env, id, l, CheckPut(input), mints[2]) == next
    ensures Served(env, s, pid, PutRecord(id, input), arrival, mints) ==
            Exec(env, s.(procs := s.procs[pid := Proc(PutRecord(id, input), next)]), Own(pid, mints[3..]))
  {
    var s0 := s.(procs := s.procs[pid := Proc(PutRecord(id, input), Finding(id, ReadRecord, CheckPut(input)))]);
    ServedFrom(env, s, pid, PutRecord(id, input), arrival, mints);
    FindUndisturbed(env, s0, pid, id, CheckPut(input), mints, l);
    assert With(s0, pid, next) == s.(procs := s.procs[pid := Proc(PutRecord(id, input), next)]);
  }

  /** The last four steps of a PUT: the transaction, and the read of what it left. */
  lemma AppendsAndReplies(env: Env, s: Sys, pid: nat, id: Uuid, vid: Uuid, row: VersionRow, mints: seq<Mint>, l: Loaded)
    requires pid in s.procs && s.procs[pid].pc == Appending(id, vid, row) && |mints| >= 4
    requires AppendTx(s.tables, vid, row).Some? && Find(AppendTx(s.tables, vid, row).value, id) == Ok(Some(l))
    ensures Exec(env, s, Own(pid, mints)) ==
            Sys(AppendTx(s.tables, vid, row).value, s.blobs,
                s.procs[pid := s.procs[pid].(pc := Done(Shown(RowOf(l.record, l.attribution))))])
  {
    var n := Sys(AppendTx(s.tables, vid, row).value, s.blobs, s.procs[pid := s.procs[pid].(pc := Finding(id, ReadRecord, Reply))]);
    OwnFirst(env, s, pid, mints);
    assert Apply(env, s, Step(pid, mints[0])) == n;
    Replies(env, n, pid, id, mints[1..], l);
  }

  lemma PutAppends(env: Env, s: Sys, pid: nat, id: Uuid, input: BodyInput, row: VersionRow, arrival: Mint, mints: seq<Mint>,
                   l: Loaded, after: Loaded)
    requires pid !in s.procs && |mints| >= 7 && Find(s.tables, id) == Ok(Some(l))
    requires Resume(env, id, l, CheckPut(input), mints[2]) == Appending(id, mints[2].vid, row)
    requires AppendTx(s.tables, mints[2].vid, row).Some? && Find(AppendTx(s.tables, mints[2].vid, row).value, id) == Ok(Some(after))
    ensures Served(env, s, pid, PutRecord(id, input), arrival, mints) ==
            Sys(AppendTx(s.tables, mints[2].vid, row).value, s.blobs,
                s.procs[pid := Proc(PutRecord(id, input), Done(Shown(RowOf(after.record, after.attribution))))])
  {
    var s1 := s.(procs := s.procs[pid := Proc(PutRecord(id, input), Appending(id, mints[2].vid, row))]);
    PutReads(env, s, pid, id, input, arrival, mints, l, Appending(id, mints[2].vid, row));
    AppendsAndReplies(env, s1, pid, id, mints[2].vid, row, mints[3..], after);
  }

  lemma PutTaken(env: Env, s: Sys, pid: nat, id: Uuid, input: BodyInput, row: VersionRow, arrival: Mint, mints: seq<Mint>, l: Loaded)
    requires pid !in s.procs && |mints| >= 4 && Find(s.tables, id) == Ok(Some(l))
    requires Resume(env, id, l, CheckPut(input), mints[2]) == Appending(id, mints[2].vid, row)
    requires mints[2].vid in s.tables.versions
    ensures Served(env, s, pid, PutRecord(id, input), arrival, mints) ==
            s.(procs := s.procs[pid := Proc(PutRecord(id, input), Done(DbFailed(Surreal)))])
  {
    var s1 := s.(procs := s.procs[pid := Proc(PutRecord(id, input), Appending(id, mints[2].vid, row))]);
    PutReads(env, s, pid, id, input, arrival, mints, l, Appending(id, mints[2].vid, row));
    OwnQuiet(env, s1, pid, mints[3..], Done(DbFailed(Surreal)));
    OwnDone(env, With(s1, pid, Done(DbFailed(Surreal))), pid, mints[3..][1..]);
  }

  lemma PutEnds(env: Env, s: Sys, pid: nat, id: Uuid, input: BodyInput, arrival: Mint, mints: seq<Mint>, l: Loaded, resp: Response)
    requires pid !in s.procs && |mints| >= 3 && Find(s.tables, id) == Ok(Some(l))
    requires Resume(env, id, l, CheckPut(input), mints[2]) == Done(resp)
    ensures Served(env, s, pid, PutRecord(id, input), arrival, mints) ==
            s.(procs := s.procs[pid := Proc(PutRecord(id, input), Done(resp))])
  {
    PutReads(env, s, pid, id, input, arrival, mints, l, Done(resp));
    OwnDone(env, s.(procs := s.procs[pid := Proc(PutRecord(id, input), Done(resp))]), pid, mints[3..]);
  }

  lemma PutRefused(env: Env, s: Sys, pid: nat, id: Uuid, input: BodyInput, arrival: Mint, mints: seq<Mint>, l: Loaded)
    requires pid !in s.procs && |mints| >= 4 && Find(s.tables, id) == Ok(Some(l))
    requires l.record.state.Mutable? && (exists body :: Means(env, input, body)) ==> mints[2].vid in s.tables.versions
    ensures Served(env, s, pid, PutRecord(id, input), arrival, mints) ==
            s.(procs := s.procs[pid := Proc(PutRecord(id, input), Done(
              if !l.record.state.Mutable? then StateConflict(l.record.state)
              else if !exists body :: Means(env, input, body) then BadRequest
              else DbFailed(Surreal)))])
  {
    ResumePut(env, id, l, input, mints[2]);
    if !l.record.state.Mutable? {
      PutEnds(env, s, pid, id, input, arrival, mints, l, StateConflict(l.record.state));
    } else if body :| Means(env, input, body) {
      PutTaken(env, s, pid, id, input, VersionRow(id, body, mints[2].now), arrival, mints, l);
    } else {
      PutEnds(env, s, pid, id, input, arrival, mints, l, BadRequest);
    }
  }

  /** A PUT that does not append is told why, and nothing changes. */
  lemma PutRefusedAlone(env: Env, s: Sys, pid: nat, id: Uuid, input: BodyInput, arrival: Mint, mints: seq<Mint>)
    requires WellFormed(s.tables) && pid !in s.procs && |mints| >= 4
    requires !Appendable(env, s.tables, id, input, mints[2].vid)
    ensures var n := Served(env, s, pid, PutRecord(id, input), arrival, mints);
            Untouched(s, n) && Answered(s, n, pid, PutRecord(id, input), PutRefusal(env, s.tables, id, input))
  {
    AbsHoldsAll(s.tables, id);
    if id in s.tables.records {
      PutRefused(env, s, pid, id, input, arrival, mints, Abs(s.tables)[id]);
    } else {
      UnknownId(env, s, pid, PutRecord(id, input), id, CheckPut(input), arrival, mints);
    }
  }

  /** A PUT appends exactly when the record is there and mutable, its body means
      something and the version id is free: it is shown the record with the new
      version, which is the record's own update exactly when the version comes
      after the chain. Otherwise it is told why and nothing changes. */
  lemma PutAlone(env: Env, s: Sys, pid: nat, id: Uuid, input: BodyInput, body: Body, arrival: Mint, mints: seq<Mint>)
    requires WellFormed(s.tables) && pid !in s.procs && |mints| >= 7
    ensures var n, vid := Served(env, s, pid, PutRecord(id, input), arrival, mints), mints[2].vid;
            if !Appendable(env, s.tables, id, input, vid) then
              Untouched(s, n) && Answered(s, n, pid, PutRecord(id, input), PutRefusal(env, s.tables, id, input))
            else
              Means(env, input, body) ==> Put(env, s, n, pid, id, input, Version(vid, body), mints[2].now)
  {
    if !Appendable(env, s.tables, id, input, mints[2].vid) {
      PutRefusedAlone(env, s, pid, id, input, arrival, mints);
    } else if Means(env, input, body) {
      PutServed(env, s, pid, id, input, body, arrival, mints);
    }
  }

  /** From `s` to `n` the PUT has appended `v` at the time `now`, and is shown the record as it is then. */
  ghost predicate Put(env: Env, s: Sys, n: Sys, pid: nat, id: Uuid, input: BodyInput, v: Version, now: Time) {
    && n.blobs == s.blobs && id in Abs(s.tables) && id in Abs(n.tables)
    && Answered(s, n, pid, PutRecord(id, input), Shown(RowOf(Abs(n.tables)[id].record, Abs(n.tables)[id].attribution)))
    && v.id in n.tables.versions && n.tables.versions[v.id] == VersionRow(id, v.body, now)
    && (Abs(n.tables) == Abs(s.tables)[id := Abs(s.tables)[id].(record := Updated(Abs(s.tables)[id].record, v))] <==>
        ComesLast(s.tables.versions, v.id, VersionRow(id, v.body, now)))
  }

  lemma PutServed(env: Env, s: Sys, pid: nat, id: Uuid, input: BodyInput, body: Body, arrival: Mint, mints: seq<Mint>)
    requires WellFormed(s.tables) && pid !in s.procs && |mints| >= 7
    requires Appendable(env, s.tables, id, input, mints[2].vid) && Means(env, input, body)
    ensures Put(env, s, Served(env, s, pid, PutRecord(id, input), arrival, mints), pid, id, input, Version(mints[2].vid, body), mints[2].now)
  {
    var l, vid, row := Abs(s.tables)[id], mints[2].vid, VersionRow(id, body, mints[2].now);
    var u := AppendTx(s.tables, vid, row).value;
    AbsHoldsAll(s.tables, id);
    AppendKeepsWellFormed(s.tables, vid, row);
    AbsHoldsAll(u, id);
    ResumePut(env, id, l, input, mints[2]);
    PutAppends(env, s, pid, id, input, row, arrival, mints, l, Abs(u)[id]);
    AppendIsUpdateIff(s.tables, vid, row, l);
  }

  // ---- Fix ----

  /** The body a record ends in. */
  function LastOf(r: Record): Body
    requires r.versions != []
  {
    r.versions[|r.versions| - 1].body
  }

  /** The bytes of a body can be fetched: they are inline, or storage is configured and has them. */
  predicate Reachable(env: Env, blobs: Blobs, body: Body) {
    body.BlobRef? ==> env.hasStorage && body.key in blobs
  }

  /** A fix of the record `l` under `h` may go through: it is not fixed, and
      its last payload can be fetched and has that digest. */
  predicate Fixable(env: Env, blobs: Blobs, l: Loaded, h: Digest) {
    && l.record.versions != [] && !l.record.state.Fixed?
    && Reachable(env, blobs, LastOf(l.record)) && PayloadHash(env, blobs, LastOf(l.record)) == Some(h)
  }

  /** Why a fix of the record `l` is refused. */
  function FixRefusal(env: Env, blobs: Blobs, l: Loaded): Response
    requires l.record.versions != []
  {
    if l.record.state.Fixed? then StateConflict(Fixed)
    else if !Reachable(env, blobs, LastOf(l.record)) then Internal
    else HashMismatch
  }

  /** The blobs once the payload of `body` has been copied to the fossil key. */
  function Copied(blobs: Blobs, body: Body, h: Digest): Blobs {
    if body.BlobRef? && body.key in blobs && "/fixed/" + HexOf(h) !in blobs
    then blobs["/fixed/" + HexOf(h) := blobs[body.key]]
    else blobs
  }

  /** From its second read on a fix commits and shows the fossil of what it
      finds, or is refused by the repository because the record was fixed meanwhile. */
  lemma FixFromSecondRead(env: Env, s: Sys, pid: nat, id: Uuid, h: Digest, mints: seq<Mint>, l: Loaded)
    requires pid in s.procs && s.procs[pid].pc == Assembling(id, h, ReadRecord) && |mints| >= 7
    requires Find(s.tables, id) == Ok(Some(l))
    ensures Exec(env, s, Own(pid, mints)) ==
            if l.record.state.Fixed? then With(s, pid, Done(DbFailed(StateMismatch)))
            else Sys(TransitionResult(s.tables, id, h, mints[2].now).1, s.blobs,
                     s.procs[pid := s.procs[pid].(pc := Done(Shown(RowOf(Fossil(l.record, h), l.attribution))))])
  {
    if l.record.state.Fixed? {
      AssembleUndisturbed(env, s, pid, id, h, mints, l);
      OwnDone(env, With(s, pid, Done(DbFailed(StateMismatch))), pid, mints[3..]);
    } else {
      FixCommits(env, s, pid, id, h, mints, l);
    }
  }

  lemma FixCommits(env: Env, s: Sys, pid: nat, id: Uuid, h: Digest, mints: seq<Mint>, l: Loaded)
    requires pid in s.procs && s.procs[pid].pc == Assembling(id, h, ReadRecord) && |mints| >= 7
    requires Find(s.tables, id) == Ok(Some(l)) && !l.record.state.Fixed?
    ensures Exec(env, s, Own(pid, mints)) ==
            Sys(TransitionResult(s.tables, id, h, mints[2].now).1, s.blobs,
                s.procs[pid := s.procs[pid].(pc := Done(Shown(RowOf(Fossil(l.record, h), l.attribution))))])
  {
    FoundRows(s.tables, id);
    var last := l.record.versions[|l.record.versions| - 1];
    var next := Committing(id, h, mints[2].now, last.id, Hardened(last.body, h));
    PreparesCommit(env, s, pid, id, h, mints, l, next);
    CommitsAndReplies(env, With(s, pid, next), pid, id, h, mints[2].now, last.id, Hardened(last.body, h), mints[3..],
                      TransitionResult(s.tables, id, h, mints[2].now).1, l);
  }

  lemma PreparesCommit(env: Env, s: Sys, pid: nat, id: Uuid, h: Digest, mints: seq<Mint>, l: Loaded, next: Pc)
    requires pid in s.procs && s.procs[pid].pc == Assembling(id, h, ReadRecord) && |mints| >= 3
    requires Find(s.tables, id) == Ok(Some(l)) && Prepare(id, h, l, mints[2]) == next
    ensures Exec(env, s, Own(pid, mints)) == Exec(env, With(s, pid, next), Own(pid, mints[3..]))
  {
    AssembleUndisturbed(env, s, pid, id, h, mints, l);
  }

  /** The transaction of a fix, and the read of what it left. */
  lemma CommitsAndReplies(env: Env, s: Sys, pid: nat, id: Uuid, h: Digest, now: Time, vid: Uuid, body: Body, mints: seq<Mint>,
                          u: Tables, l: Loaded)
    requires pid in s.procs && s.procs[pid].pc == Committing(id, h, now, vid, body) && |mints| >= 4
    requires Find(s.tables, id) == Ok(Some(l)) && !l.record.state.Fixed?
    requires u == FixTx(s.tables, id, HexOf(h), now, vid, body) && u == TransitionResult(s.tables, id, h, now).1
    ensures Exec(env, s, Own(pid, mints)) ==
            Sys(u, s.blobs, s.procs[pid := s.procs[pid].(pc := Done(Shown(RowOf(Fossil(l.record, h), l.attribution))))])
  {
    var n := Sys(u, s.blobs, s.procs[pid := s.procs[pid].(pc := Finding(id, ReadRecord, Reply))]);
    OwnFirst(env, s, pid, mints);
    assert Apply(env, s, Step(pid, mints[0])) == n;
    TransitionFound(s.tables, id, h, now, l);
    Replies(env, n, pid, id, mints[1..], l.(record := Fossil(l.record, h)));
  }

  /** A fix hashes the blob, fetches it once more and copies it. */
  lemma FixChecksBlob(env: Env, s: Sys, pid: nat, id: Uuid, h: Digest, body: Body, mints: seq<Mint>)
    requires body.BlobRef? && pid in s.procs && s.procs[pid].pc == Hashing(id, h, body.key) && |mints| >= 3
    ensures Exec(env, s, Own(pid, mints)) ==
            if body.key !in s.blobs then With(s, pid, Done(Internal))
            else if env.sha(s.blobs[body.key]) != h then With(s, pid, Done(HashMismatch))
            else Exec(env, With(s, pid, Assembling(id, h, ReadRecord)).(blobs := Copied(s.blobs, body, h)), Own(pid, mints[3..]))
  {
    if body.key in s.blobs && env.sha(s.blobs[body.key]) == h {
      var bytes := s.blobs[body.key];
      var s1, s2 := With(s, pid, Copying(id, h, body.key)), With(s, pid, Fossilizing(id, h, bytes));
      OwnQuiet(env, s, pid, mints, Copying(id, h, body.key));
      OwnQuiet(env, s1, pid, mints[1..], Fossilizing(id, h, bytes));
      assert With(s1, pid, Fossilizing(id, h, bytes)) == s2;
      CopiesBlob(env, s2, pid, id, h, bytes, mints[1..][1..]);
      assert mints[1..][1..][1..] == mints[3..];
      assert Copied(s.blobs, body, h) == PutIfAbsent(s.blobs, FixedKey(h), bytes);
      assert With(s2, pid, Assembling(id, h, ReadRecord)) == With(s, pid, Assembling(id, h, ReadRecord));
    } else {
      var resp := if body.key in s.blobs then HashMismatch else Internal;
      OwnQuiet(env, s, pid, mints, Done(resp));
      OwnDone(env, With(s, pid, Done(resp)), pid, mints[1..]);
    }
  }

  lemma CopiesBlob(env: Env, s: Sys, pid: nat, id: Uuid, h: Digest, bytes: Bytes, mints: seq<Mint>)
    requires pid in s.procs && s.procs[pid].pc == Fossilizing(id, h, bytes) && mints != []
    ensures Exec(env, s, Own(pid, mints)) ==
            Exec(env, With(s, pid, Assembling(id, h, ReadRecord)).(blobs := PutIfAbsent(s.blobs, FixedKey(h), bytes)),
                 Own(pid, mints[1..]))
  {
    OwnFirst(env, s, pid, mints);
  }

  /** Where a fix goes with the record it has found. */
  lemma ResumeFix(env: Env, blobs: Blobs, id: Uuid, l: Loaded, h: Digest, mint: Mint)
    requires l.record.versions != []
    ensures var last, next := LastOf(l.record), Resume(env, id, l, CheckFix(h), mint);
            && (last.Inline? && Fixable(env, blobs, l, h) ==> next == Assembling(id, h, ReadRecord))
            && (last.Inline? && !Fixable(env, blobs, l, h) ==> next == Done(FixRefusal(env, blobs, l)))
            && (last.BlobRef? && (l.record.state.Fixed? || !env.hasStorage) ==> next == Done(FixRefusal(env, blobs, l)))
            && (last.BlobRef? && !l.record.state.Fixed? && env.hasStorage ==> next == Hashing(id, h, last.key))
  {
  }

  lemma FixReads(env: Env, s: Sys, pid: nat, id: Uuid, text: string, h: Digest, arrival: Mint, mints: seq<Mint>, l: Loaded, next: Pc)
    requires pid !in s.procs && |mints| >= 3 && Find(s.tables, id) == Ok(Some(l)) && ParseHexApi(text) == Some(h)
    requires Resume(env, id, l, CheckFix(h), mints[2]) == next
    ensures Served(env, s, pid, FixRecord(id, text), arrival, mints) ==
            Exec(env, s.(procs := s.procs[pid := Proc(FixRecord(id, text), next)]), Own(pid, mints[3..]))
  {
    var s0 := s.(procs := s.procs[pid := Proc(FixRecord(id, text), Finding(id, ReadRecord, CheckFix(h)))]);
    ServedFrom(env, s, pid, FixRecord(id, text), arrival, mints);
    FindUndisturbed(env, s0, pid, id, CheckFix(h), mints, l);
    assert With(s0, pid, next) == s.(procs := s.procs[pid := Proc(FixRecord(id, text), next)]);
  }

  lemma FixEnds(env: Env, s: Sys, pid: nat, id: Uuid, text: string, h: Digest, arrival: Mint, mints: seq<Mint>, l: Loaded, resp: Response)
    requires pid !in s.procs && |mints| >= 3 && Find(s.tables, id) == Ok(Some(l)) && ParseHexApi(text) == Some(h)
    requires Resume(env, id, l, CheckFix(h), mints[2]) == Done(resp)
    ensures Served(env, s, pid, FixRecord(id, text), arrival, mints) ==
            s.(procs := s.procs[pid := Proc(FixRecord(id, text), Done(resp))])
  {
    FixReads(env, s, pid, id, text, h, arrival, mints, l, Done(resp));
    OwnDone(env, s.(procs := s.procs[pid := Proc(FixRecord(id, text), Done(resp))]), pid, mints[3..]);
  }

  lemma FixInline(env: Env, s: Sys, pid: nat, id: Uuid, text: string, h: Digest, arrival: Mint, mints: seq<Mint>, l: Loaded)
    requires pid !in s.procs && |mints| >= 10 && Find(s.tables, id) == Ok(Some(l)) && ParseHexApi(text) == Some(h)
    requires Fixable(env, s.blobs, l, h) && LastOf(l.record).Inline?
    ensures Served(env, s, pid, FixRecord(id, text), arrival, mints) ==
            Sys(TransitionResult(s.tables, id, h, mints[5].now).1, s.blobs,
                s.procs[pid := Proc(FixRecord(id, text), Done(Shown(RowOf(Fossil(l.record, h), l.attribution))))])
  {
    ResumeFix(env, s.blobs, id, l, h, mints[2]);
    FixReads(env, s, pid, id, text, h, arrival, mints, l, Assembling(id, h, ReadRecord));
    var s1 := s.(procs := s.procs[pid := Proc(FixRecord(id, text), Assembling(id, h, ReadRecord))]);
    FixFromSecondRead(env, s1, pid, id, h, mints[3..], l);
  }

  lemma FixHashes(env: Env, s: Sys, pid: nat, id: Uuid, text: string, h: Digest, arrival: Mint, mints: seq<Mint>, l: Loaded)
    requires pid !in s.procs && |mints| >= 3 && Find(s.tables, id) == Ok(Some(l)) && ParseHexApi(text) == Some(h)
    requires l.record.versions != [] && LastOf(l.record).BlobRef? && !l.record.state.Fixed? && env.hasStorage
    ensures Served(env, s, pid, FixRecord(id, text), arrival, mints) ==
            Exec(env, s.(procs := s.procs[pid := Proc(FixRecord(id, text), Hashing(id, h, LastOf(l.record).key))]), Own(pid, mints[3..]))
  {
    ResumeFix(env, s.blobs, id, l, h, mints[2]);
    FixReads(env, s, pid, id, text, h, arrival, mints, l, Hashing(id, h, LastOf(l.record).key));
  }

  lemma FixCopies(env: Env, s: Sys, pid: nat, req: Request, id: Uuid, h: Digest, body: Body, mints: seq<Mint>)
    requires body.BlobRef? && pid in s.procs && s.procs[pid] == Proc(req, Hashing(id, h, body.key)) && |mints| >= 3
    requires body.key in s.blobs && env.sha(s.blobs[body.key]) == h
    ensures Exec(env, s, Own(pid, mints)) ==
            Exec(env, Sys(s.tables, Copied(s.blobs, body, h), s.procs[pid := Proc(req, Assembling(id, h, ReadRecord))]), Own(pid, mints[3..]))
  {
    FixChecksBlob(env, s, pid, id, h, body, mints);
  }

  lemma FixHashFails(env: Env, s: Sys, pid: nat, req: Request, id: Uuid, h: Digest, body: Body, mints: seq<Mint>)
    requires body.BlobRef? && pid in s.procs && s.procs[pid] == Proc(req, Hashing(id, h, body.key)) && |mints| >= 3
    requires body.key in s.blobs ==> env.sha(s.blobs[body.key]) != h
    ensures Exec(env, s, Own(pid, mints)) ==
            s.(procs := s.procs[pid := Proc(req, Done(if body.key in s.blobs then HashMismatch else Internal))])
  {
    FixChecksBlob(env, s, pid, id, h, body, mints);
  }

  lemma FixBlobRefused(env: Env, s: Sys, pid: nat, id: Uuid, text: string, h: Digest, arrival: Mint, mints: seq<Mint>, l: Loaded)
    requires pid !in s.procs && |mints| >= 6 && Find(s.tables, id) == Ok(Some(l)) && ParseHexApi(text) == Some(h)
    requires l.record.versions != [] && LastOf(l.record).BlobRef? && !l.record.state.Fixed? && env.hasStorage
    requires !Fixable(env, s.blobs, l, h)
    ensures Served(env, s, pid, FixRecord(id, text), arrival, mints) ==
            s.(procs := s.procs[pid := Proc(FixRecord(id, text), Done(FixRefusal(env, s.blobs, l)))])
  {
    var last := LastOf(l.record);
    var s1 := s.(procs := s.procs[pid := Proc(FixRecord(id, text), Hashing(id, h, last.key))]);
    FixHashes(env, s, pid, id, text, h, arrival, mints, l);
    FixHashFails(env, s1, pid, FixRecord(id, text), id, h, last, mints[3..]);
  }

  /** A fix from the moment it hashes a blob that has the digest. */
  lemma FixFromHash(env: Env, s: Sys, pid: nat, req: Request, id: Uuid, h: Digest, mints: seq<Mint>, l: Loaded)
    requires l.record.versions != [] && LastOf(l.record).BlobRef? && pid in s.procs && |mints| >= 10
    requires s.procs[pid] == Proc(req, Hashing(id, h, LastOf(l.record).key)) && Find(s.tables, id) == Ok(Some(l))
    requires Fixable(env, s.blobs, l, h)
    ensures Exec(env, s, Own(pid, mints)) ==
            Sys(TransitionResult(s.tables, id, h, mints[5].now).1, Copied(s.blobs, LastOf(l.record), h),
                s.procs[pid := Proc(req, Done(Shown(RowOf(Fossil(l.record, h), l.attribution))))])
  {
    var s1 := Sys(s.tables, Copied(s.blobs, LastOf(l.record), h), s.procs[pid := Proc(req, Assembling(id, h, ReadRecord))]);
    FixCopies(env, s, pid, req, id, h, LastOf(l.record), mints);
    FixFromSecondRead(env, s1, pid, id, h, mints[3..], l);
  }

  lemma FixBlob(env: Env, s: Sys, pid: nat, id: Uuid, text: string, h: Digest, arrival: Mint, mints: seq<Mint>, l: Loaded)
    requires pid !in s.procs && |mints| >= 13 && Find(s.tables, id) == Ok(Some(l)) && ParseHexApi(text) == Some(h)
    requires Fixable(env, s.blobs, l, h) && LastOf(l.record).BlobRef?
    ensures Served(env, s, pid, FixRecord(id, text), arrival, mints) ==
            Sys(TransitionResult(s.tables, id, h, mints[8].now).1, Copied(s.blobs, LastOf(l.record), h),
                s.procs[pid := Proc(FixRecord(id, text), Done(Shown(RowOf(Fossil(l.record, h), l.attribution))))])
  {
    var s1 := s.(procs := s.procs[pid := Proc(FixRecord(id, text), Hashing(id, h, LastOf(l.record).key))]);
    FixHashes(env, s, pid, id, text, h, arrival, mints, l);
    FixFromHash(env, s1, pid, FixRecord(id, text), id, h, mints[3..], l);
  }

  lemma FixRefusedAlone(env: Env, s: Sys, pid: nat, id: Uuid, text: string, h: Digest, arrival: Mint, mints: seq<Mint>, l: Loaded)
    requires pid !in s.procs && |mints| >= 6 && Find(s.tables, id) == Ok(Some(l)) && ParseHexApi(text) == Some(h)
    requires l.record.versions != [] && !Fixable(env, s.blobs, l, h)
    ensures Served(env, s, pid, FixRecord(id, text), arrival, mints) ==
            s.(procs := s.procs[pid := Proc(FixRecord(id, text), Done(FixRefusal(env, s.blobs, l)))])
  {
    if LastOf(l.record).BlobRef? && !l.record.state.Fixed? && env.hasStorage {
      FixBlobRefused(env, s, pid, id, text, h, arrival, mints, l);
    } else {
      ResumeFix(env, s.blobs, id, l, h, mints[2]);
      FixEnds(env, s, pid, id, text, h, arrival, mints, l, FixRefusal(env, s.blobs, l));
    }
  }

  /** From `s` to `n` the record `l` was fixed under `h`: the caller is shown its
      fossil, the store differs there only, and the payload is at the fossil key. */
  ghost predicate FixedAs(s: Sys, n: Sys, pid: nat, req: Request, id: Uuid, l: Loaded, h: Digest)
    requires l.record.versions != []
  {
    && Answered(s, n, pid, req, Shown(RowOf(Fossil(l.record, h), l.attribution)))
    && Abs(n.tables) == Abs(s.tables)[id := l.(record := Fossil(l.record, h))]
    && n.blobs == Copied(s.blobs, LastOf(l.record), h)
  }

  lemma FixServed(env: Env, s: Sys, pid: nat, id: Uuid, text: string, h: Digest, arrival: Mint, mints: seq<Mint>, l: Loaded)
    requires WellFormed(s.tables) && pid !in s.procs && |mints| >= 13
    requires Find(s.tables, id) == Ok(Some(l)) && ParseHexApi(text) == Some(h) && Fixable(env, s.blobs, l, h)
    ensures FixedAs(s, Served(env, s, pid, FixRecord(id, text), arrival, mints), pid, FixRecord(id, text), id, l, h)
  {
    if LastOf(l.record).Inline? {
      FixInline(env, s, pid, id, text, h, arrival, mints, l);
      TransitionIsFix(s.tables, id, h, mints[5].now, l);
    } else {
      FixBlob(env, s, pid, id, text, h, arrival, mints, l);
      TransitionIsFix(s.tables, id, h, mints[8].now, l);
    }
  }

  /** A fix goes through exactly when its text is a digest, the record is there
      and not fixed, of whatever state and chain length, and its last payload
      can be fetched and has that digest. Otherwise it is told why and nothing changes. */
  lemma FixAlone(env: Env, s: Sys, pid: nat, id: Uuid, text: string, arrival: Mint, mints: seq<Mint>)
    requires WellFormed(s.tables) && pid !in s.procs && |mints| >= 13
    ensures id in Abs(s.tables) ==> Abs(s.tables)[id].record.versions != []
    ensures var n, req := Served(env, s, pid, FixRecord(id, text), arrival, mints), FixRecord(id, text);
            if ParseHexApi(text).None? then Untouched(s, n) && Answered(s, n, pid, req, BadRequest)
            else if id !in Abs(s.tables) then Untouched(s, n) && Answered(s, n, pid, req, NotFound)
            else if Fixable(env, s.blobs, Abs(s.tables)[id], ParseHexApi(text).value) then
              FixedAs(s, n, pid, req, id, Abs(s.tables)[id], ParseHexApi(text).value)
            else Untouched(s, n) && Answered(s, n, pid, req, FixRefusal(env, s.blobs, Abs(s.tables)[id]))
  {
    AbsHoldsAll(s.tables, id);
    if ParseHexApi(text).None? {
      ServedAtOnce(env, s, pid, FixRecord(id, text), arrival, mints, BadRequest);
    } else if id !in Abs(s.tables) {
      UnknownId(env, s, pid, FixRecord(id, text), id, CheckFix(ParseHexApi(text).value), arrival, mints);
    } else if Fixable(env, s.blobs, Abs(s.tables)[id], ParseHexApi(text).value) {
      FixServed(env, s, pid, id, text, ParseHexApi(text).value, arrival, mints, Abs(s.tables)[id]);
    } else {
      FixRefusedAlone(env, s, pid, id, text, ParseHexApi(text).value, arrival, mints, Abs(s.tables)[id]);
    }
  }

  // ---- POST record ----

  /** The record a POST asks for, under the ids minted for it. */
  function Requested(arrival: Mint, kind: string, body: Body): Record {
    Record(Mutable, arrival.id, KindFromString(kind), None, [Version(arrival.vid, body)])
  }

  lemma RequestedProper(arrival: Mint, kind: string, body: Body)
    ensures var r := Requested(arrival, kind, body); Proper(r) && r.state.Mutable? && |r.versions| == 1 && !Disguised(r.kind)
  {
  }

  /** A POST of a kind and a body that mean something creates its record if both its ids are free. */
  predicate Creatable(t: Tables, arrival: Mint) {
    arrival.id !in t.records && arrival.vid !in t.versions
  }

  lemma BeginPost(env: Env, kind: string, input: BodyInput, sub: Option<string>, arrival: Mint)
    ensures forall body | kind != "" && Means(env, input, body) ::
              Begin(env, PostRecord(kind, input, sub), arrival) ==
              SaveSelect(Requested(arrival, kind, body), "creo_user:" + Who(sub), arrival.now)
    ensures kind == "" || !(exists body :: Means(env, input, body)) ==>
              Begin(env, PostRecord(kind, input, sub), arrival) == Done(BadRequest)
  {
    if IntoBody(env, input).Some? {
      IntoBodyIff(env, input, IntoBody(env, input).value);
    }
  }

  /** What is found of a record just created: the record, and the creator the edge names. */
  lemma CreatedAttribution(t: Tables, r: Record, creator: string, now: Time, who: Thing)
    requires WellFormed(t) && Proper(r) && r.state.Mutable? && |r.versions| == 1 && !Disguised(r.kind)
    requires ParseThing(creator) == Ok(who) && CreateTx(t, RecordToRow(r, creator, now), who).Some?
    ensures Find(CreateTx(t, RecordToRow(r, creator, now), who).value, r.id) == Ok(Some(Loaded(r, Attribution(Literal(who), now))))
  {
    var row := RecordToRow(r, creator, now);
    WrittenLoads(t, r, creator, now);
    KindRoundTrip(r.kind);
    CreatedFind(t, row, who);
  }

  lemma SingleFresh(vs: VersionTable, r: Record, creator: string, now: Time)
    requires |r.versions| == 1
    ensures FreshVersions(vs, RecordToRow(r, creator, now).versions) <==> r.versions[0].id !in vs
  {
    var added := RecordToRow(r, creator, now).versions;
    assert |added| == 1 && added[0].id == r.versions[0].id;
  }

  /** What the transaction of a POST leaves: its record beside the others, under its creator. */
  lemma CreatesRequested(t: Tables, r: Record, creator: string, now: Time, who: Thing)
    requires WellFormed(t) && Proper(r) && r.state.Mutable? && |r.versions| == 1 && !Disguised(r.kind)
    requires r.id !in t.records && r.versions[0].id !in t.versions && ParseThing(creator) == Ok(who)
    ensures CreateTx(t, RecordToRow(r, creator, now), who).Some?
    ensures Abs(CreateTx(t, RecordToRow(r, creator, now), who).value) == Abs(t)[r.id := Loaded(r, Attribution(Literal(who), now))]
  {
    SingleFresh(t.versions, r, creator, now);
    CreatedAttribution(t, r, creator, now, who);
    SaveInserts(t, r, creator, now);
    StoreAt(CreateTx(t, RecordToRow(r, creator, now), who).value, r.id);
  }

  lemma PostExists(env: Env, s: Sys, pid: nat, req: Request, r: Record, creator: string, arrival: Mint, mints: seq<Mint>)
    requires pid !in s.procs && |mints| >= 2 && r.id in s.tables.records
    requires Begin(env, req, arrival) == SaveSelect(r, creator, arrival.now)
    ensures Served(env, s, pid, req, arrival, mints) == s.(procs := s.procs[pid := Proc(req, Done(DbFailed(AlreadyExists(r.id))))])
  {
    ServedInOne(env, s, pid, req, arrival, mints, SaveSelect(r, creator, arrival.now), s.blobs, DbFailed(AlreadyExists(r.id)));
  }

  /** The step that creates a record, or fails to. */
  lemma CreateStepIs(env: Env, t: Tables, blobs: Blobs, r: Record, creator: string, now: Time, who: Thing, mint: Mint)
    requires ParseThing(creator) == Ok(who)
    ensures BlobsAfter(env, blobs, SaveCreate(r, creator, now)) == blobs
    ensures var pc, created := SaveCreate(r, creator, now), CreateTx(t, RecordToRow(r, creator, now), who);
            && TablesAfter(t, pc) == (if created.Some? then created.value else t)
            && PcAfter(env, t, blobs, pc, mint) ==
               Done(if created.Some? then Created(RowOf(r, Attribution(creator, mint.now))) else DbFailed(Surreal))
  {
  }

  /** A POST whose id is free selects and then creates. */
  lemma PostInTwo(env: Env, s: Sys, pid: nat, req: Request, r: Record, creator: string, arrival: Mint, mints: seq<Mint>,
                  u: Tables, resp: Response)
    requires pid !in s.procs && |mints| >= 2 && r.id !in s.tables.records
    requires Begin(env, req, arrival) == SaveSelect(r, creator, arrival.now)
    requires Leaves(env, s.tables, s.blobs, SaveCreate(r, creator, arrival.now), mints[1], u, s.blobs, Done(resp))
    ensures Served(env, s, pid, req, arrival, mints) == Sys(u, s.blobs, s.procs[pid := Proc(req, Done(resp))])
  {
    ServedFrom(env, s, pid, req, arrival, mints);
    PostSelects(env, s, r, creator, arrival.now, mints[0]);
    EndsInTwo(env, s.(procs := s.procs[pid := Proc(req, SaveSelect(r, creator, arrival.now))]), pid, mints,
              SaveCreate(r, creator, arrival.now), u, resp);
  }

  lemma PostSelects(env: Env, s: Sys, r: Record, creator: string, now: Time, mint: Mint)
    requires r.id !in s.tables.records
    ensures GoesTo(env, s.tables, s.blobs, SaveSelect(r, creator, now), mint, SaveCreate(r, creator, now))
  {
  }

  /** From `s` to `n` the POST has created the record `r` for `sub` and is told so. */
  ghost predicate Posted(s: Sys, n: Sys, pid: nat, req: Request, r: Record, sub: Option<string>, at: Time, told: Time) {
    && n.blobs == s.blobs
    && Abs(n.tables) == Abs(s.tables)[r.id := Loaded(r, Attribution(Literal(Thing("creo_user", Who(sub))), at))]
    && Answered(s, n, pid, req, Created(RowOf(r, Attribution("creo_user:" + Who(sub), told))))
  }

  lemma PostServed(env: Env, s: Sys, pid: nat, kind: string, input: BodyInput, sub: Option<string>, body: Body,
                   arrival: Mint, mints: seq<Mint>)
    requires WellFormed(s.tables) && pid !in s.procs && |mints| >= 2
    requires kind != "" && Means(env, input, body)
    ensures var n, req := Served(env, s, pid, PostRecord(kind, input, sub), arrival, mints), PostRecord(kind, input, sub);
            if Creatable(s.tables, arrival)
            then Posted(s, n, pid, req, Requested(arrival, kind, body), sub, arrival.now, mints[1].now)
            else Untouched(s, n) &&
                 Answered(s, n, pid, req, DbFailed(if arrival.id in Abs(s.tables) then AlreadyExists(arrival.id) else Surreal))
  {
    var creator, r := "creo_user:" + Who(sub), Requested(arrival, kind, body);
    var who, req := Thing("creo_user", Who(sub)), PostRecord(kind, input, sub);
    assert ParseThing(creator) == Ok(who) by { UserTag(Who(sub)); }
    assert Begin(env, req, arrival) == SaveSelect(r, creator, arrival.now) by { BeginPost(env, kind, input, sub, arrival); }
    AbsHoldsAll(s.tables, arrival.id);
    RequestedProper(arrival, kind, body);
    PostRuns(env, s, pid, req, r, creator, who, arrival, mints);
  }

  lemma PostRuns(env: Env, s: Sys, pid: nat, req: Request, r: Record, creator: string, who: Thing, arrival: Mint, mints: seq<Mint>)
    requires WellFormed(s.tables) && pid !in s.procs && |mints| >= 2 && ParseThing(creator) == Ok(who)
    requires Proper(r) && r.state.Mutable? && |r.versions| == 1 && !Disguised(r.kind)
    requires Begin(env, req, arrival) == SaveSelect(r, creator, arrival.now)
    ensures var n := Served(env, s, pid, req, arrival, mints);
            if r.id !in s.tables.records && r.versions[0].id !in s.tables.versions then
              && n.blobs == s.blobs
              && Abs(n.tables) == Abs(s.tables)[r.id := Loaded(r, Attribution(Literal(who), arrival.now))]
              && Answered(s, n, pid, req, Created(RowOf(r, Attribution(creator, mints[1].now))))
            else
              Untouched(s, n)
              && Answered(s, n, pid, req, DbFailed(if r.id in s.tables.records then AlreadyExists(r.id) else Surreal))
  {
    if r.id in s.tables.records {
      PostExists(env, s, pid, req, r, creator, arrival, mints);
    } else {
      SingleFresh(s.tables.versions, r, creator, arrival.now);
      CreateStepIs(env, s.tables, s.blobs, r, creator, arrival.now, who, mints[1]);
      var created := CreateTx(s.tables, RecordToRow(r, creator, arrival.now), who);
      PostInTwo(env, s, pid, req, r, creator, arrival, mints, if created.Some? then created.value else s.tables,
                  if created.Some? then Created(RowOf(r, Attribution(creator, mints[1].now))) else DbFailed(Surreal));
      if created.Some? {
        CreatesRequested(s.tables, r, creator, arrival.now, who);
      }
    }
  }

  /** A POST creates exactly the record it asks for, credited to the subject of
      its token, when its kind and its body mean something and its minted ids are
      free. Otherwise it is told why and nothing changes. */
  lemma PostAlone(env: Env, s: Sys, pid: nat, kind: string, input: BodyInput, sub: Option<string>, body: Body,
                  arrival: Mint, mints: seq<Mint>)
    requires WellFormed(s.tables) && pid !in s.procs && |mints| >= 2
    ensures var n, req := Served(env, s, pid, PostRecord(kind, input, sub), arrival, mints), PostRecord(kind, input, sub);
            && (kind == "" || !(exists b :: Means(env, input, b)) ==> Untouched(s, n) && Answered(s, n, pid, req, BadRequest))
            && (kind != "" && Means(env, input, body) ==>
                  if Creatable(s.tables, arrival)
                  then Posted(s, n, pid, req, Requested(arrival, kind, body), sub, arrival.now, mints[1].now)
                  else Untouched(s, n) &&
                       Answered(s, n, pid, req, DbFailed(if arrival.id in Abs(s.tables) then AlreadyExists(arrival.id) else Surreal)))
  {
    if kind == "" || !(exists b :: Means(env, input, b)) {
      BeginPost(env, kind, input, sub, arrival);
      ServedAtOnce(env, s, pid, PostRecord(kind, input, sub), arrival, mints, BadRequest);
    } else if Means(env, input, body) {
      PostServed(env, s, pid, kind, input, sub, body, arrival, mints);
    }
  }
}
