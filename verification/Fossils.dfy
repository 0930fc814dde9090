/** What holds as long as no PUT and no fix of one record overlap, everything
    else interleaving freely: a fixed record's digest is the digest of its
    trailing payload, and a fixed record never changes again. */
module Fossils {
  import opened Basics
  import opened Digests
  import opened Core
  import opened Things
  import opened Convert
  import opened Tables
  import opened Load
  import opened Storage
  import opened Server
  import opened Integrity

  // ---- The condition on runs ----

  /** The record a fix request is working on: from its first read to its transaction. */
  function FixTarget(pc: Pc): Option<Uuid> {
    match pc
    case Finding(_, ReadRecord, _) => None
    case Finding(id, _, CheckFix(_)) => Some(id)
    case Hashing(id, _, _) => Some(id)
    case Copying(id, _, _) => Some(id)
    case Fossilizing(id, _, _) => Some(id)
    case Assembling(id, _, _) => Some(id)
    case Committing(id, _, _, _, _) => Some(id)
    case _ => None
  }

  /** The record a PUT request is working on: from its first read to its transaction. */
  function PutTarget(pc: Pc): Option<Uuid> {
    match pc
    case Finding(_, ReadRecord, _) => None
    case Finding(id, _, CheckPut(_)) => Some(id)
    case Appending(id, _, _) => Some(id)
    case _ => None
  }

  /** No record is being put and fixed at the same time. */
  ghost predicate Apart(procs: map<nat, Proc>) {
    forall p, q | p in procs && q in procs ::
      FixTarget(procs[p].pc).None? || PutTarget(procs[q].pc) != FixTarget(procs[p].pc)
  }

  /** No record is being put and fixed at the same time at any moment of the run. */
  ghost predicate NoOverlap(env: Env, s: Sys, run: seq<Action>) {
    forall k | 0 <= k <= |run| :: Apart(Exec(env, s, run[..k]).procs)
  }

  // ---- Payloads ----

  /** The digest of the bytes a body stands for, when they are there. */
  function PayloadHash(env: Env, blobs: Blobs, body: Body): Option<Digest> {
    match body
    case Inline(bytes) => Some(env.sha(bytes))
    case BlobRef(key, _) => if key in blobs then Some(env.sha(blobs[key])) else None
  }

  /** Two bodies for one payload: equal, or blobs of one size and one digest. */
  predicate SamePayload(env: Env, blobs: Blobs, a: Body, b: Body) {
    SameShape(a, b) && (a == b || (PayloadHash(env, blobs, a).Some? && PayloadHash(env, blobs, a) == PayloadHash(env, blobs, b)))
  }

  /** The trailing payload of `id` has digest `h`, and a blob payload is stored under its fossil key. */
  ghost predicate Ready(env: Env, t: Tables, blobs: Blobs, id: Uuid, h: Digest) {
    && PayloadHash(env, blobs, Tail(t, id).body) == Some(h)
    && (Tail(t, id).body.BlobRef? ==> FixedKey(h) in blobs)
  }

  /** Versions read earlier end in the version that is last now, with the same payload. */
  ghost predicate EndsAlike(env: Env, t: Tables, blobs: Blobs, id: Uuid, versions: seq<PersistedVersion>) {
    && versions != []
    && versions[|versions| - 1].id == Tail(t, id).id
    && SamePayload(env, blobs, versions[|versions| - 1].body, Tail(t, id).body)
  }

  /** A body fit to be fossilised under `h`: its payload has that digest, and a blob lies under its fossil key. */
  predicate Stamped(env: Env, blobs: Blobs, body: Body, h: Digest) {
    PayloadHash(env, blobs, body) == Some(h) && (body.BlobRef? ==> body.key == FixedKey(h))
  }

  /** A fixed record done right: its digest is its trailing payload's, and a blob lies under its fossil key. */
  ghost predicate FossilOk(env: Env, t: Tables, blobs: Blobs, id: Uuid)
    requires id in t.records
  {
    && t.records[id].contentHash.Some?
    && ParseHex(t.records[id].contentHash.value).Ok?
    && Stamped(env, blobs, Tail(t, id).body, ParseHex(t.records[id].contentHash.value).value)
  }

  ghost predicate AllFossilsOk(env: Env, t: Tables, blobs: Blobs) {
    forall id | id in t.records && t.records[id].state == "fixed" :: FossilOk(env, t, blobs, id)
  }

  // ---- The invariant ----

  /** A PUT that has read a row has read the state that still holds. */
  ghost predicate PutSound(t: Tables, pc: Pc) {
    match pc
    case Finding(id, ReadVersions(row), CheckPut(_)) => id in t.records && t.records[id].state == AsLiteral(row.state)
    case Finding(id, ReadEdge(row, _), CheckPut(_)) => id in t.records && t.records[id].state == AsLiteral(row.state)
    case Appending(id, _, _) => id in t.records && t.records[id].state == "mutable"
    case _ => true
  }

  /** A fix has read, checked and copied what is still the trailing payload. */
  ghost predicate FixSound(env: Env, t: Tables, blobs: Blobs, pc: Pc) {
    match pc
    case Finding(id, ReadEdge(_, versions), CheckFix(_)) => EndsAlike(env, t, blobs, id, versions)
    case Hashing(id, _, key) =>
      exists size :: SamePayload(env, blobs, BlobRef(key, size), Tail(t, id).body)
    case Copying(id, h, _) => PayloadHash(env, blobs, Tail(t, id).body) == Some(h)
    case Fossilizing(id, h, _) => PayloadHash(env, blobs, Tail(t, id).body) == Some(h)
    case Assembling(id, h, reading) =>
      && Ready(env, t, blobs, id, h)
      && (reading.ReadEdge? ==> EndsAlike(env, t, blobs, id, reading.versions))
    case Committing(id, h, _, vid, body) =>
      && Ready(env, t, blobs, id, h)
      && vid == Tail(t, id).id && body == Hardened(Tail(t, id).body, h)
    case _ => true
  }

  ghost predicate Sound(env: Env, s: Sys) {
    && AllFossilsOk(env, s.tables, s.blobs)
    && forall p | p in s.procs :: PutSound(s.tables, s.procs[p].pc) && FixSound(env, s.tables, s.blobs, s.procs[p].pc)
  }

  // ---- What one step leaves of a record ----

  /** The trailing version of `id` is the same one with the same payload. */
  ghost predicate TailKept(env: Env, t: Tables, u: Tables, blobs: Blobs, id: Uuid) {
    && Tail(u, id).id == Tail(t, id).id
    && SamePayload(env, blobs, Tail(t, id).body, Tail(u, id).body)
  }

  lemma TailSame(env: Env, t: Tables, u: Tables, blobs: Blobs, id: Uuid)
    requires SameFor(t, u, id)
    ensures Tail(u, id) == Tail(t, id)
    ensures TailKept(env, t, u, blobs, id)
  {
    ChainSame(t.versions, u.versions, id);
  }

  /** Hardening a payload that is ready changes where it lies, not what it is. */
  lemma HardenedSamePayload(env: Env, blobs: Blobs, body: Body, h: Digest)
    requires PayloadHash(env, blobs, body) == Some(h)
    requires body.BlobRef? ==> FixedKey(h) in blobs
    requires Addressed(env, blobs)
    ensures SamePayload(env, blobs, body, Hardened(body, h))
    ensures PayloadHash(env, blobs, Hardened(body, h)) == Some(h)
  {
  }

  lemma SamePayloadGrows(env: Env, blobs: Blobs, after: Blobs, a: Body, b: Body)
    requires SamePayload(env, blobs, a, b) && Grows(blobs, after)
    ensures SamePayload(env, after, a, b)
  {
  }

  lemma SamePayloadTransitive(env: Env, blobs: Blobs, a: Body, b: Body, c: Body)
    requires SamePayload(env, blobs, a, b) && SamePayload(env, blobs, b, c)
    ensures SamePayload(env, blobs, a, c)
  {
  }

  /** A fix in progress survives any step that keeps the record's tail. */
  lemma FixSoundKept(env: Env, t: Tables, u: Tables, blobs: Blobs, after: Blobs, pc: Pc)
    requires FixSound(env, t, blobs, pc)
    requires Grows(blobs, after)
    requires FixTarget(pc).Some? ==> TailKept(env, t, u, blobs, FixTarget(pc).value)
    ensures FixSound(env, u, after, pc)
  {
    if FixTarget(pc).Some? {
      var id := FixTarget(pc).value;
      var a, b := Tail(t, id).body, Tail(u, id).body;
      SamePayloadGrows(env, blobs, after, a, b);
      match pc {
        case Finding(_, ReadEdge(_, versions), CheckFix(_)) =>
          SamePayloadTransitive(env, blobs, versions[|versions| - 1].body, a, b);
          SamePayloadGrows(env, blobs, after, versions[|versions| - 1].body, b);
        case Hashing(_, _, key) =>
          var size :| SamePayload(env, blobs, BlobRef(key, size), a);
          SamePayloadTransitive(env, blobs, BlobRef(key, size), a, b);
          SamePayloadGrows(env, blobs, after, BlobRef(key, size), b);
        case Assembling(_, _, ReadEdge(_, versions)) =>
          SamePayloadTransitive(env, blobs, versions[|versions| - 1].body, a, b);
          SamePayloadGrows(env, blobs, after, versions[|versions| - 1].body, b);
        case _ =>
      }
    }
  }

  /** A fixed record done right stays so while its row and tail stay and blobs grow. */
  lemma FossilOkKept(env: Env, t: Tables, u: Tables, blobs: Blobs, after: Blobs, id: Uuid)
    requires id in t.records && id in u.records
    requires u.records[id].contentHash == t.records[id].contentHash
    requires Tail(u, id) == Tail(t, id) && Grows(blobs, after)
    requires FossilOk(env, t, blobs, id)
    ensures FossilOk(env, u, after, id)
  {
  }

  // ---- One step, by what it changes ----

  /** A step that leaves the tables alone. */
  lemma QuietStep(env: Env, s: Sys, after: Blobs)
    requires Sound(env, s) && Grows(s.blobs, after)
    ensures AllFossilsOk(env, s.tables, after)
    ensures forall p | p in s.procs :: FixSound(env, s.tables, after, s.procs[p].pc)
  {
    forall p | p in s.procs
      ensures FixSound(env, s.tables, after, s.procs[p].pc)
    {
      FixSoundKept(env, s.tables, s.tables, s.blobs, after, s.procs[p].pc);
    }
    forall id | id in s.tables.records && s.tables.records[id].state == "fixed"
      ensures FossilOk(env, s.tables, after, id)
    {
      FossilOkKept(env, s.tables, s.tables, s.blobs, after, id);
    }
  }

  /** A PUT does not notice a step that keeps the state of its record. */
  lemma PutKept(env: Env, t: Tables, u: Tables, blobs: Blobs, pc: Pc)
    requires PcOk(env, t, blobs, pc) && PutSound(t, pc)
    requires PutTarget(pc).Some? && PutTarget(pc).value in t.records ==>
               PutTarget(pc).value in u.records
               && u.records[PutTarget(pc).value].state == t.records[PutTarget(pc).value].state
    ensures PutSound(u, pc)
  {
  }

  /** A fix does not notice a step that works on another record. */
  lemma FixKept(env: Env, t: Tables, u: Tables, blobs: Blobs, rid: Uuid, pc: Pc)
    requires PcOk(env, t, blobs, pc) && FixSound(env, t, blobs, pc)
    requires FramesOthers(t, u, rid)
    requires FixTarget(pc) == Some(rid) ==> rid !in t.records
    ensures FixSound(env, u, blobs, pc)
  {
    if FixTarget(pc).Some? && FixTarget(pc).value in t.records {
      TailSame(env, t, u, blobs, FixTarget(pc).value);
      FixSoundKept(env, t, u, blobs, blobs, pc);
    }
  }

  lemma OtherFossilsKept(env: Env, t: Tables, u: Tables, blobs: Blobs, rid: Uuid)
    requires AllFossilsOk(env, t, blobs) && FramesOthers(t, u, rid)
    requires u.records.Keys <= t.records.Keys + {rid}
    ensures forall id | id in u.records && id != rid && u.records[id].state == "fixed" :: FossilOk(env, u, blobs, id)
  {
    forall id | id in u.records && id != rid && u.records[id].state == "fixed"
      ensures FossilOk(env, u, blobs, id)
    {
      assert SameFor(t, u, id);
      TailSame(env, t, u, blobs, id);
      FossilOkKept(env, t, u, blobs, blobs, id);
    }
  }

  /** A POST creates its record beside the others. */
  lemma CreateSound(env: Env, s: Sys, r: Record, creator: string, now: Time, who: Thing)
    requires Inv(env, s) && Sound(env, s)
    requires r.state.Mutable? && CreateTx(s.tables, RecordToRow(r, creator, now), who).Some?
    ensures var u := CreateTx(s.tables, RecordToRow(r, creator, now), who).value;
            && AllFossilsOk(env, u, s.blobs)
            && forall p | p in s.procs :: PutSound(u, s.procs[p].pc) && FixSound(env, u, s.blobs, s.procs[p].pc)
  {
    var t, row := s.tables, RecordToRow(r, creator, now);
    var u := CreateTx(t, row, who).value;
    CreateFramesOthers(t, row, who);
    OtherFossilsKept(env, t, u, s.blobs, r.id);
    forall p | p in s.procs
      ensures PutSound(u, s.procs[p].pc) && FixSound(env, u, s.blobs, s.procs[p].pc)
    {
      PutKept(env, t, u, s.blobs, s.procs[p].pc);
      FixKept(env, t, u, s.blobs, r.id, s.procs[p].pc);
    }
  }

  /** A PUT appends to a record that is still mutable and that nobody is fixing. */
  lemma AppendSound(env: Env, s: Sys, id: Uuid, vid: Uuid, row: VersionRow)
    requires Inv(env, s) && Sound(env, s)
    requires id in s.tables.records && s.tables.records[id].state == "mutable" && row.recordId == id
    requires forall p | p in s.procs :: FixTarget(s.procs[p].pc) != Some(id)
    requires AppendTx(s.tables, vid, row).Some?
    ensures var u := AppendTx(s.tables, vid, row).value;
            && AllFossilsOk(env, u, s.blobs)
            && forall p | p in s.procs :: PutSound(u, s.procs[p].pc) && FixSound(env, u, s.blobs, s.procs[p].pc)
  {
    var t := s.tables;
    var u := AppendTx(t, vid, row).value;
    AppendFramesOthers(t, vid, row);
    OtherFossilsKept(env, t, u, s.blobs, id);
    forall p | p in s.procs
      ensures PutSound(u, s.procs[p].pc) && FixSound(env, u, s.blobs, s.procs[p].pc)
    {
      PutKept(env, t, u, s.blobs, s.procs[p].pc);
      FixKept(env, t, u, s.blobs, id, s.procs[p].pc);
    }
  }

  /** The record a fix commits comes out right, and its tail keeps its payload. */
  lemma CommittedFossil(env: Env, t: Tables, blobs: Blobs, id: Uuid, h: Digest, now: Time)
    requires WellFormed(t) && Addressed(env, blobs) && id in t.records && Ready(env, t, blobs, id, h)
    ensures var u := FixTx(t, id, HexOf(h), now, Tail(t, id).id, Hardened(Tail(t, id).body, h));
            && id in u.records && FossilOk(env, u, blobs, id)
            && TailKept(env, t, u, blobs, id) && FramesOthers(t, u, id)
            && Tail(u, id) == Tail(t, id).(body := Hardened(Tail(t, id).body, h))
  {
    var vid, body := Tail(t, id).id, Hardened(Tail(t, id).body, h);
    TailIsRow(t, id);
    TailAfterFix(t, id, HexOf(h), now, vid, body, id);
    HardenedSamePayload(env, blobs, Tail(t, id).body, h);
    ParseOfDisplay(h);
    FixFramesOthers(t, id, HexOf(h), now, vid, body);
  }

  /** A fix commits what it checked; other fixes of the same record may be under way, PUTs may not. */
  lemma CommitSound(env: Env, s: Sys, id: Uuid, h: Digest, now: Time)
    requires Inv(env, s) && Sound(env, s)
    requires id in s.tables.records && Ready(env, s.tables, s.blobs, id, h)
    requires forall p | p in s.procs :: PutTarget(s.procs[p].pc) != Some(id)
    ensures var t := s.tables;
            var u := FixTx(t, id, HexOf(h), now, Tail(t, id).id, Hardened(Tail(t, id).body, h));
            && AllFossilsOk(env, u, s.blobs)
            && forall p | p in s.procs :: PutSound(u, s.procs[p].pc) && FixSound(env, u, s.blobs, s.procs[p].pc)
  {
    var t := s.tables;
    var u := FixTx(t, id, HexOf(h), now, Tail(t, id).id, Hardened(Tail(t, id).body, h));
    CommittedFossil(env, t, s.blobs, id, h, now);
    OtherFossilsKept(env, t, u, s.blobs, id);
    forall p | p in s.procs
      ensures PutSound(u, s.procs[p].pc) && FixSound(env, u, s.blobs, s.procs[p].pc)
    {
      var pc := s.procs[p].pc;
      PutKept(env, t, u, s.blobs, pc);
      if FixTarget(pc) == Some(id) {
        FixSoundKept(env, t, u, s.blobs, s.blobs, pc);
      } else {
        FixKept(env, t, u, s.blobs, id, pc);
      }
    }
  }

  // ---- One step of the request itself ----

  lemma FindForPut(env: Env, t: Tables, blobs: Blobs, id: Uuid, reading: Reading, input: BodyInput, mint: Mint)
    requires ProgressOk(t, id, reading, ReadStep(t, id, reading))
    requires PutSound(t, Finding(id, reading, CheckPut(input)))
    ensures PutSound(t, PcAfter(env, t, blobs, Finding(id, reading, CheckPut(input)), mint))
  {
    if reading.ReadRecord? && id in t.records {
      var row := t.records[id];
      if FromLiteral(row.state).Ok? {
        StateLiteralRoundTrip(FromLiteral(row.state).value, row.state);
      }
    }
  }

  lemma FindForFix(env: Env, t: Tables, blobs: Blobs, id: Uuid, reading: Reading, h: Digest, mint: Mint)
    requires ProgressOk(t, id, reading, ReadStep(t, id, reading))
    requires FixSound(env, t, blobs, Finding(id, reading, CheckFix(h)))
    ensures FixSound(env, t, blobs, PcAfter(env, t, blobs, Finding(id, reading, CheckFix(h)), mint))
  {
    if reading.ReadVersions? {
      assert SameShape(Tail(t, id).body, Tail(t, id).body);
    }
    if reading.ReadEdge? {
      var vs := reading.versions;
      var last := vs[|vs| - 1].body;
      assert SamePayload(env, blobs, last, Tail(t, id).body);
      if last.BlobRef? {
        assert last == BlobRef(last.key, last.size);
      }
    }
  }

  lemma AssembleForFix(env: Env, t: Tables, blobs: Blobs, id: Uuid, reading: Reading, h: Digest, mint: Mint)
    requires ProgressOk(t, id, reading, ReadStep(t, id, reading))
    requires FixSound(env, t, blobs, Assembling(id, h, reading))
    ensures FixSound(env, t, blobs, PcAfter(env, t, blobs, Assembling(id, h, reading), mint))
  {
    if reading.ReadVersions? {
      assert SameShape(Tail(t, id).body, Tail(t, id).body);
    }
  }

  /** The steps of a fix that touch storage. */
  lemma StorageForFix(env: Env, t: Tables, blobs: Blobs, pc: Pc, mint: Mint)
    requires pc.Hashing? || pc.Copying? || pc.Fossilizing?
    requires PcOk(env, t, blobs, pc) && FixSound(env, t, blobs, pc)
    ensures FixSound(env, t, BlobsAfter(env, blobs, pc), PcAfter(env, t, blobs, pc, mint))
  {
  }

  // ---- Every step, every run ----

  lemma QuietKeepsOthers(env: Env, s: Sys, pid: nat)
    requires Inv(env, s) && Sound(env, s) && pid in s.procs
    requires TablesAfter(s.tables, s.procs[pid].pc) == s.tables
    ensures var after := BlobsAfter(env, s.blobs, s.procs[pid].pc);
            && AllFossilsOk(env, s.tables, after)
            && forall p | p in s.procs :: PutSound(s.tables, s.procs[p].pc) && FixSound(env, s.tables, after, s.procs[p].pc)
  {
    assert PcOk(env, s.tables, s.blobs, s.procs[pid].pc);
    PutKeepsAddressed(env, s.blobs, s.procs[pid].pc);
    QuietStep(env, s, BlobsAfter(env, s.blobs, s.procs[pid].pc));
  }

  /** What the tables and the other requests are left with after a step. */
  lemma StepKeepsOthers(env: Env, s: Sys, pid: nat)
    requires Inv(env, s) && Sound(env, s) && Apart(s.procs) && pid in s.procs
    ensures var u, after := TablesAfter(s.tables, s.procs[pid].pc), BlobsAfter(env, s.blobs, s.procs[pid].pc);
            && AllFossilsOk(env, u, after)
            && forall p | p in s.procs :: PutSound(u, s.procs[p].pc) && FixSound(env, u, after, s.procs[p].pc)
  {
    var pc := s.procs[pid].pc;
    assert PcOk(env, s.tables, s.blobs, pc) && PutSound(s.tables, pc) && FixSound(env, s.tables, s.blobs, pc);
    match pc {
      case SaveCreate(r, creator, now) =>
        var who := ParseThing(creator).value;
        if CreateTx(s.tables, RecordToRow(r, creator, now), who).Some? {
          CreateSound(env, s, r, creator, now, who);
        }
      case Appending(id, vid, row) =>
        if AppendTx(s.tables, vid, row).Some? {
          AppendSound(env, s, id, vid, row);
        }
      case Committing(id, h, now, _, _) => CommitSound(env, s, id, h, now);
      case _ => QuietKeepsOthers(env, s, pid);
    }
  }

  lemma FindStepSound(env: Env, t: Tables, blobs: Blobs, id: Uuid, reading: Reading, next: Next, mint: Mint)
    requires ProgressOk(t, id, reading, ReadStep(t, id, reading))
    requires PutSound(t, Finding(id, reading, next)) && FixSound(env, t, blobs, Finding(id, reading, next))
    ensures var after := PcAfter(env, t, blobs, Finding(id, reading, next), mint);
            PutSound(t, after) && FixSound(env, t, blobs, after)
  {
    match next {
      case Reply =>
      case CheckPut(input) => FindForPut(env, t, blobs, id, reading, input, mint);
      case CheckFix(h) => FindForFix(env, t, blobs, id, reading, h, mint);
    }
  }

  /** A request is left with something sound after its own step. */
  lemma OwnStepSound(env: Env, t: Tables, blobs: Blobs, pc: Pc, mint: Mint)
    requires PcOk(env, t, blobs, pc)
    requires PutSound(t, pc) && FixSound(env, t, blobs, pc)
    requires pc.Finding? || pc.Assembling? ==> ProgressOk(t, pc.id, pc.reading, ReadStep(t, pc.id, pc.reading))
    ensures PutSound(TablesAfter(t, pc), PcAfter(env, t, blobs, pc, mint))
    ensures FixSound(env, TablesAfter(t, pc), BlobsAfter(env, blobs, pc), PcAfter(env, t, blobs, pc, mint))
  {
    match pc {
      case Finding(id, reading, next) => FindStepSound(env, t, blobs, id, reading, next, mint);
      case Assembling(id, h, reading) => AssembleForFix(env, t, blobs, id, reading, h, mint);
      case Hashing(_, _, _) => StorageForFix(env, t, blobs, pc, mint);
      case Copying(_, _, _) => StorageForFix(env, t, blobs, pc, mint);
      case Fossilizing(_, _, _) => StorageForFix(env, t, blobs, pc, mint);
      case _ =>
    }
  }

  lemma MoverSound(env: Env, s: Sys, pid: nat, mint: Mint)
    requires Inv(env, s) && Sound(env, s) && pid in s.procs
    ensures var pc := s.procs[pid].pc;
            var next := PcAfter(env, s.tables, s.blobs, pc, mint);
            && PutSound(TablesAfter(s.tables, pc), next)
            && FixSound(env, TablesAfter(s.tables, pc), BlobsAfter(env, s.blobs, pc), next)
  {
    var pc := s.procs[pid].pc;
    assert PcOk(env, s.tables, s.blobs, pc) && PutSound(s.tables, pc) && FixSound(env, s.tables, s.blobs, pc);
    if pc.Finding? || pc.Assembling? {
      ReadStepOk(s.tables, pc.id, pc.reading);
    }
    OwnStepSound(env, s.tables, s.blobs, pc, mint);
  }

  lemma StepSound(env: Env, s: Sys, pid: nat, mint: Mint)
    requires Inv(env, s) && Sound(env, s) && Apart(s.procs) && pid in s.procs
    ensures Sound(env, Apply(env, s, Step(pid, mint)))
  {
    StepKeepsOthers(env, s, pid);
    MoverSound(env, s, pid, mint);
  }

  /** Requests that arrive or end leave everything sound. */
  lemma ArrivalSound(env: Env, s: Sys, a: Action)
    requires Sound(env, s) && !a.Step?
    ensures Sound(env, Apply(env, s, a))
  {
    if a.Start? {
      var pc := Begin(env, a.req, a.mint);
      assert PutSound(s.tables, pc) && FixSound(env, s.tables, s.blobs, pc);
    }
  }

  lemma ApplySound(env: Env, s: Sys, a: Action)
    requires Inv(env, s) && Sound(env, s) && Apart(s.procs)
    ensures Sound(env, Apply(env, s, a))
  {
    if !a.Step? {
      ArrivalSound(env, s, a);
    } else if a.pid in s.procs {
      StepSound(env, s, a.pid, a.mint);
    }
  }

  lemma NoOverlapPrefix(env: Env, s: Sys, run: seq<Action>, i: nat)
    requires NoOverlap(env, s, run) && i <= |run|
    ensures NoOverlap(env, s, run[..i])
    ensures Apart(Exec(env, s, run[..i]).procs)
  {
    forall k | 0 <= k <= i
      ensures Apart(Exec(env, s, run[..i][..k]).procs)
    {
      assert run[..i][..k] == run[..k];
    }
  }

  /** In every run without overlap, from any well-formed data whose fixed
      records are right, every fixed record is right: its digest is the digest
      of its trailing payload, and a trailing blob lies under its fossil key. */
  lemma {:induction false} FossilsAlwaysOk(env: Env, s: Sys, run: seq<Action>)
    requires Initial(env, s) && AllFossilsOk(env, s.tables, s.blobs)
    requires NoOverlap(env, s, run)
    ensures Inv(env, Exec(env, s, run)) && Sound(env, Exec(env, s, run))
    decreases |run|
  {
    AlwaysIntact(env, s, run);
    if run != [] {
      var shorter := run[..|run| - 1];
      NoOverlapPrefix(env, s, run, |run| - 1);
      FossilsAlwaysOk(env, s, shorter);
      ApplySound(env, Exec(env, s, shorter), run[|run| - 1]);
    }
  }

  /** A record as a caller sees it: fixed means its digest is that of its last
      body's payload, and a last blob lies under its fossil key. */
  ghost predicate RightlyFixed(env: Env, blobs: Blobs, r: Record) {
    r.hash.Some? && r.versions != [] && Stamped(env, blobs, r.versions[|r.versions| - 1].body, r.hash.value)
  }

  lemma FoundFossil(env: Env, t: Tables, blobs: Blobs, id: Uuid, l: Loaded)
    requires AllFossilsOk(env, t, blobs)
    requires Find(t, id) == Ok(Some(l)) && l.record.state.Fixed?
    ensures RightlyFixed(env, blobs, l.record)
  {
    FoundRows(t, id);
    assert FossilOk(env, t, blobs, id);
  }

  /** In every run without overlap, whatever record is found fixed is rightly so. */
  lemma FixedRecordIntegrity(env: Env, s: Sys, run: seq<Action>, id: Uuid, l: Loaded)
    requires Initial(env, s) && AllFossilsOk(env, s.tables, s.blobs)
    requires NoOverlap(env, s, run)
    requires Find(Exec(env, s, run).tables, id) == Ok(Some(l)) && l.record.state.Fixed?
    ensures RightlyFixed(env, Exec(env, s, run).blobs, l.record)
  {
    FossilsAlwaysOk(env, s, run);
    FoundFossil(env, Exec(env, s, run).tables, Exec(env, s, run).blobs, id, l);
  }
}
