/** The HTTP requests as a step machine. A request is a program counter with
    the values it has read; each database query or transaction and each
    storage call is one atomic step, and any number of requests interleave. */
module Server {
  import opened Basics
  import opened Digests
  import opened Core
  import opened Things
  import opened Convert
  import opened Tables
  import opened Load
  import opened Storage

  /** What the machine is run with: the digest function, the base64 decoder,
      and whether blob storage is configured. */
  datatype Env = Env(sha: Bytes -> Digest, decode: string -> Option<Bytes>, hasStorage: bool)

  /** Uploads above this size are refused: 10 MiB. */
  const ASSET_BODY_LIMIT := 10 * 1024 * 1024

  datatype BodyInput = InlineB64(text: string) | BlobInput(key: string, size: nat)

  datatype Request =
    | PostRecord(kind: string, body: BodyInput, sub: Option<string>)
    | PutRecord(id: Uuid, body: BodyInput)
    | FixRecord(id: Uuid, contentHash: string)
    | GetRecord(id: Uuid)
    | PostAsset(bytes: Bytes)

  datatype Response =
    | BadRequest
    | NotFound
    | StateConflict(actual: State)
    | HashMismatch
    | PayloadTooLarge
    | Internal
    | DbFailed(e: DbError)
    | Created(row: PersistedRow)
    | Shown(row: PersistedRow)
    | Stored(key: string, size: nat, sha256: string, outcome: PutOutcome)
    | Aborted

  /** How far the three reads of one record have come. */
  datatype Reading =
    | ReadRecord
    | ReadVersions(row: PersistedRecord)
    | ReadEdge(row: PersistedRecord, versions: seq<PersistedVersion>)

  /** What a request does with the record it finds. */
  datatype Next = Reply | CheckPut(body: BodyInput) | CheckFix(h: Digest)

  datatype Pc =
    | SaveSelect(r: Record, creator: string, now: Time)
    | SaveCreate(r: Record, creator: string, now: Time)
    | Finding(id: Uuid, reading: Reading, next: Next)
    | Appending(id: Uuid, vid: Uuid, row: VersionRow)
    | Hashing(id: Uuid, h: Digest, key: string)
    | Copying(id: Uuid, h: Digest, key: string)
    | Fossilizing(id: Uuid, h: Digest, bytes: Bytes)
    | Assembling(id: Uuid, h: Digest, reading: Reading)
    | Committing(id: Uuid, h: Digest, now: Time, vid: Uuid, body: Body)
    | Uploading(bytes: Bytes)
    | Done(resp: Response)

  datatype Proc = Proc(req: Request, pc: Pc)

  datatype Sys = Sys(tables: Tables, blobs: Blobs, procs: map<nat, Proc>)

  /** Ids and the clock reading a step may use; nothing is assumed of them. */
  datatype Mint = Mint(id: Uuid, vid: Uuid, now: Time)

  /** One move of the machine: a request arrives, a request takes its next
      step, or a request ends because a backend call failed or its caller left. */
  datatype Action = Start(pid: nat, req: Request, mint: Mint) | Step(pid: nat, mint: Mint) | Abort(pid: nat)

  function AssetKey(h: Digest): string {
    "/assets/" + HexOf(h)
  }

  /** The body of a request; an empty or undecodable payload and an empty key are refused. */
  function IntoBody(env: Env, input: BodyInput): Option<Body> {
    match input
    case InlineB64(text) =>
      if text == "" then None
      else
        (match env.decode(text)
         case Some(bytes) => Some(Inline(bytes))
         case None => None)
    case BlobInput(key, size) => if key == "" then None else Some(BlobRef(key, size))
  }

  /** The body a request means: the decoded bytes of a text that is not empty, or the blob it names. */
  predicate Means(env: Env, input: BodyInput, body: Body) {
    match input
    case InlineB64(text) => text != "" && env.decode(text).Some? && body == Inline(env.decode(text).value)
    case BlobInput(key, size) => key != "" && body == BlobRef(key, size)
  }

  /** A request's body is accepted exactly when it means one, and as that one. */
  lemma IntoBodyIff(env: Env, input: BodyInput, body: Body)
    ensures IntoBody(env, input) == Some(body) <==> Means(env, input, body)
  {
  }

  /** Where a request stands when it arrives, before its first query. */
  function Begin(env: Env, req: Request, mint: Mint): Pc {
    match req
    case PostRecord(kind, input, sub) =>
      (match (ParseKind(kind), IntoBody(env, input))
       case (Some(k), Some(body)) =>
         SaveSelect(NewRecord(mint.id, mint.vid, k, body), CreatorFromClaims(sub), mint.now)
       case _ => Done(BadRequest))
    case PutRecord(id, input) => Finding(id, ReadRecord, CheckPut(input))
    case FixRecord(id, text) =>
      (match ParseHexApi(text)
       case Some(h) => Finding(id, ReadRecord, CheckFix(h))
       case None => Done(BadRequest))
    case GetRecord(id) => Finding(id, ReadRecord, Reply)
    case PostAsset(bytes) =>
      if !env.hasStorage then Done(Internal)
      else if bytes == [] then Done(BadRequest)
      else if |bytes| > ASSET_BODY_LIMIT then Done(PayloadTooLarge)
      else Uploading(bytes)
  }

  datatype Progress = More(reading: Reading) | Missing | Failed(e: DbError) | Found(l: Loaded)

  /** One of the three reads of a record. */
  function ReadStep(t: Tables, id: Uuid, reading: Reading): Progress {
    match reading
    case ReadRecord =>
      if id !in t.records then Missing
      else
        (match IntoPersisted(t.records[id], id)
         case Ok(row) => More(ReadVersions(row))
         case Err(e) => Failed(e))
    case ReadVersions(row) => More(ReadEdge(row, Chain(t.versions, id)))
    case ReadEdge(row, versions) =>
      (match Join(row, versions, EdgeOf(t.createdBy, id))
       case Ok(l) => Found(l)
       case Err(e) => Failed(e))
  }

  /** A request that has found its record. */
  function Resume(env: Env, id: Uuid, l: Loaded, next: Next, mint: Mint): Pc {
    match next
    case Reply => Done(Shown(RowOf(l.record, l.attribution)))
    case CheckPut(input) =>
      if !l.record.state.Mutable? then Done(StateConflict(l.record.state))
      else
        (match IntoBody(env, input)
         case None => Done(BadRequest)
         case Some(body) => Appending(id, mint.vid, VersionRow(id, body, mint.now)))
    case CheckFix(h) =>
      if l.record.state.Fixed? then Done(StateConflict(Fixed))
      else if l.record.versions == [] then Done(Internal)
      else
        (match l.record.versions[|l.record.versions| - 1].body
         case Inline(bytes) => if env.sha(bytes) != h then Done(HashMismatch) else Assembling(id, h, ReadRecord)
         case BlobRef(key, _) => if !env.hasStorage then Done(Internal) else Hashing(id, h, key))
  }

  /** The second half of fixing, once the repository has re-read the record. */
  function Prepare(id: Uuid, h: Digest, l: Loaded, mint: Mint): Pc {
    if l.record.state.Fixed? then Done(DbFailed(StateMismatch))
    else if l.record.versions == [] then Done(DbFailed(EmptyVersionChain(id)))
    else
      var last := l.record.versions[|l.record.versions| - 1];
      Committing(id, h, mint.now, last.id, Hardened(last.body, h))
  }

  /** The tables after the step a request takes at `pc`. */
  function TablesAfter(t: Tables, pc: Pc): Tables {
    match pc
    case SaveCreate(r, creator, now) =>
      (match ParseThing(creator)
       case Err(_) => t
       case Ok(who) =>
         (match CreateTx(t, RecordToRow(r, creator, now), who)
          case Some(u) => u
          case None => t))
    case Appending(_, vid, row) =>
      (match AppendTx(t, vid, row)
       case Some(u) => u
       case None => t)
    case Committing(id, h, now, vid, body) => FixTx(t, id, HexOf(h), now, vid, body)
    case _ => t
  }

  /** The blobs after the step a request takes at `pc`. */
  function BlobsAfter(env: Env, blobs: Blobs, pc: Pc): Blobs {
    match pc
    case Fossilizing(_, h, bytes) => PutIfAbsent(blobs, FixedKey(h), bytes)
    case Uploading(bytes) => PutIfAbsent(blobs, AssetKey(env.sha(bytes)), bytes)
    case _ => blobs
  }

  /** Where a request stands after its step. */
  function PcAfter(env: Env, t: Tables, blobs: Blobs, pc: Pc, mint: Mint): Pc {
    match pc
    case SaveSelect(r, creator, now) =>
      if r.id in t.records then Done(DbFailed(AlreadyExists(r.id))) else SaveCreate(r, creator, now)
    case SaveCreate(r, creator, now) =>
      (match ParseThing(creator)
       case Err(e) => Done(DbFailed(e))
       case Ok(who) =>
         if CreateTx(t, RecordToRow(r, creator, now), who).None? then Done(DbFailed(Surreal))
         else Done(Created(RowOf(r, Attribution(creator, mint.now)))))
    case Finding(id, reading, next) =>
      (match ReadStep(t, id, reading)
       case More(further) => Finding(id, further, next)
       case Missing => Done(NotFound)
       case Failed(e) => Done(DbFailed(e))
       case Found(l) => Resume(env, id, l, next, mint))
    case Appending(id, vid, row) =>
      if AppendTx(t, vid, row).None? then Done(DbFailed(Surreal)) else Finding(id, ReadRecord, Reply)
    case Hashing(id, h, key) =>
      if key !in blobs then Done(Internal)
      else if env.sha(blobs[key]) != h then Done(HashMismatch)
      else Copying(id, h, key)
    case Copying(id, h, key) =>
      if key !in blobs then Done(Internal) else Fossilizing(id, h, blobs[key])
    case Fossilizing(id, h, _) => Assembling(id, h, ReadRecord)
    case Assembling(id, h, reading) =>
      (match ReadStep(t, id, reading)
       case More(further) => Assembling(id, h, further)
       case Missing => Done(DbFailed(EmptyVersionChain(id)))
       case Failed(e) => Done(DbFailed(e))
       case Found(l) => Prepare(id, h, l, mint))
    case Committing(id, _, _, _, _) => Finding(id, ReadRecord, Reply)
    case Uploading(bytes) =>
      var key := AssetKey(env.sha(bytes));
      Done(Stored(key, |bytes|, HexOf(env.sha(bytes)), if key in blobs then AlreadyThere else Wrote))
    case Done(_) => pc
  }

  /** The system after one action; an action that cannot happen changes nothing. */
  function Apply(env: Env, s: Sys, a: Action): Sys {
    match a
    case Start(pid, req, mint) =>
      if pid in s.procs then s else s.(procs := s.procs[pid := Proc(req, Begin(env, req, mint))])
    case Step(pid, mint) =>
      if pid !in s.procs then s
      else
        var p := s.procs[pid];
        Sys(TablesAfter(s.tables, p.pc), BlobsAfter(env, s.blobs, p.pc),
            s.procs[pid := p.(pc := PcAfter(env, s.tables, s.blobs, p.pc, mint))])
    case Abort(pid) =>
      if pid !in s.procs || s.procs[pid].pc.Done? then s
      else s.(procs := s.procs[pid := s.procs[pid].(pc := Done(Aborted))])
  }

  /** The system after a whole run. */
  function Exec(env: Env, s: Sys, run: seq<Action>): Sys {
    if run == [] then s else Apply(env, Exec(env, s, run[..|run| - 1]), run[|run| - 1])
  }

  /** Running in two parts is running at once. */
  lemma {:induction false} ExecSplit(env: Env, s: Sys, a: seq<Action>, b: seq<Action>)
    ensures Exec(env, s, a + b) == Exec(env, Exec(env, s, a), b)
    decreases |b|
  {
    if b == [] {
      assert a + b == a;
    } else {
      assert (a + b)[..|a + b| - 1] == a + b[..|b| - 1];
      ExecSplit(env, s, a, b[..|b| - 1]);
    }
  }

  /** A run is one action longer. */
  lemma ExecNext(env: Env, s: Sys, run: seq<Action>, k: nat)
    requires k < |run|
    ensures Exec(env, s, run[..k + 1]) == Apply(env, Exec(env, s, run[..k]), run[k])
  {
    assert run[..k + 1][..k] == run[..k];
  }
}
