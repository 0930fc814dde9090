/** Records and their lifecycle: Mutable grows versions, Snapshot is a frozen
    copy, Fixed is irreversible and carries a digest. */
module Core {
  import opened Basics
  import opened Digests

  datatype Kind = Log | Fix | Dataset | Asset | Custom(name: string)

  datatype Body = Inline(bytes: Bytes) | BlobRef(key: string, size: nat)

  datatype Version = Version(id: Uuid, body: Body)

  datatype State = Mutable | Snapshot | Fixed

  /** A record in any of its three type-states. */
  datatype Record = Record(state: State, id: Uuid, kind: Kind, hash: Option<Digest>, versions: seq<Version>)

  /** What the type-states and constructors guarantee of every record value. */
  predicate Proper(r: Record) {
    && r.versions != []
    && (r.hash.Some? <==> r.state.Fixed?)
  }

  function FixedKey(h: Digest): string {
    "/fixed/" + HexOf(h)
  }

  /** Fossilised records with equal keys have equal digests. */
  lemma FixedKeyInjective(a: Digest, b: Digest)
    requires FixedKey(a) == FixedKey(b)
    ensures a == b
  {
    assert HexOf(a) == FixedKey(a)[7..];
    assert HexOf(b) == FixedKey(b)[7..];
    HexInjective(a, b);
  }

  function NewRecord(id: Uuid, versionId: Uuid, kind: Kind, body: Body): Record {
    Record(Mutable, id, kind, None, [Version(versionId, body)])
  }

  function Updated(r: Record, v: Version): Record {
    r.(versions := r.versions + [v])
  }

  function SnapshotOf(r: Record): Record {
    r.(state := Snapshot, hash := None)
  }

  /** A body under its fossil key: inline bytes stay, a blob moves to the key of the digest. */
  function Hardened(body: Body, h: Digest): Body {
    match body
    case Inline(_) => body
    case BlobRef(_, size) => BlobRef(FixedKey(h), size)
  }

  /** What rewriting may do to a body: nothing, or move a blob of the same size to a fossil key. */
  ghost predicate BodyMoves(a: Body, b: Body) {
    a == b || (a.BlobRef? && b.BlobRef? && a.size == b.size && exists h :: b.key == FixedKey(h))
  }

  function HardenedLast(vs: seq<Version>, h: Digest): seq<Version> {
    if vs == [] then vs else vs[|vs| - 1 := vs[|vs| - 1].(body := Hardened(vs[|vs| - 1].body, h))]
  }

  /** The record that fixing `r` under the digest `h` yields. */
  function Fossil(r: Record, h: Digest): Record {
    Record(Fixed, r.id, r.kind, Some(h), HardenedLast(r.versions, h))
  }

  /** Replaces the trailing body in place, as the fossilisation helper does. */
  method Fossilize(id: Uuid, kind: Kind, chain: seq<Version>, h: Digest) returns (r: Record)
    ensures forall s :: r == Fossil(Record(s, id, kind, None, chain), h)
  {
    var versions := chain;
    if |versions| > 0 {
      var last := versions[|versions| - 1];
      match last.body {
        case Inline(_) =>
        case BlobRef(_, size) =>
          var key := Display(h);
          versions := versions[|versions| - 1 := last.(body := BlobRef("/fixed/" + key, size))];
      }
    }
    r := Record(Fixed, id, kind, Some(h), versions);
  }

  /** A record while it is mutable: the one state with a method that changes it. */
  class MutableRecord {
    const id: Uuid
    const kind: Kind
    var versions: seq<Version>

    ghost predicate Valid()
      reads this
    {
      versions != []
    }

    ghost function Value(): (r: Record)
      reads this
      requires Valid()
    {
      Record(Mutable, id, kind, None, versions)
    }

    constructor (id: Uuid, versionId: Uuid, kind: Kind, body: Body)
      ensures Valid() && Value() == NewRecord(id, versionId, kind, body)
    {
      this.id := id;
      this.kind := kind;
      this.versions := [Version(versionId, body)];
    }

    constructor FromParts(id: Uuid, kind: Kind, versions: seq<Version>)
      requires versions != []
      ensures Valid() && Value() == Record(Mutable, id, kind, None, versions)
    {
      this.id := id;
      this.kind := kind;
      this.versions := versions;
    }

    method Update(versionId: Uuid, body: Body)
      requires Valid()
      modifies this
      ensures Valid() && Value() == Updated(old(Value()), Version(versionId, body))
    {
      versions := versions + [Version(versionId, body)];
    }

    /** A copy; this record stays as it is. */
    method TakeSnapshot() returns (r: Record)
      requires Valid()
      ensures r == SnapshotOf(Value())
    {
      r := Record(Snapshot, id, kind, None, versions);
    }

    method FixWith(h: Digest) returns (r: Record)
      requires Valid()
      ensures r == Fossil(Value(), h)
    {
      r := Fossilize(id, kind, versions, h);
    }
  }

  /** Fossilisation keeps every ring: all bodies but the last are untouched,
      the last keeps its bytes or its size, and all ids stay in order. */
  lemma FossilKeepsRings(r: Record, h: Digest, i: nat)
    requires i < |r.versions|
    ensures |Fossil(r, h).versions| == |r.versions|
    ensures Fossil(r, h).versions[i].id == r.versions[i].id
    ensures i < |r.versions| - 1 ==> Fossil(r, h).versions[i] == r.versions[i]
    ensures i == |r.versions| - 1 ==> Fossil(r, h).versions[i].body == Hardened(r.versions[i].body, h)
  {
  }

  /** Going through a snapshot first changes nothing about the fossil. */
  lemma SnapshotThenFix(r: Record, h: Digest)
    ensures Fossil(SnapshotOf(r), h) == Fossil(r, h)
  {
  }

  /** A second fossilisation under the same digest changes nothing; under
      another digest it is visible. */
  lemma FossilIdempotent(r: Record, h: Digest, again: Digest)
    ensures Fossil(Fossil(r, h), again) == Fossil(r, h) <==> again == h
  {
    var once := HardenedLast(r.versions, h);
    assert HardenedLast(once, h) == once;
  }

  /** Updates after a snapshot never reach the snapshot, and the source keeps its history as a prefix. */
  lemma UpdateKeepsHistory(r: Record, v: Version)
    ensures r.versions <= Updated(r, v).versions && |Updated(r, v).versions| == |r.versions| + 1
    ensures r.versions != [] ==> Updated(r, v).versions[|r.versions| - 1].id == r.versions[|r.versions| - 1].id
    ensures Updated(r, v).id == r.id && Updated(r, v).kind == r.kind && Updated(r, v).state == r.state
  {
  }
}
