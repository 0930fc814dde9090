/** The boundary between records and stored rows. */
module Convert {
  import opened Basics
  import opened Digests
  import opened Core

  datatype PersistedRecord = PersistedRecord(
    id: Uuid, state: State, kind: string, contentHash: Option<string>, createdAt: Time, updatedAt: Time)

  datatype PersistedVersion = PersistedVersion(id: Uuid, recordId: Uuid, body: Body, createdAt: Time)

  datatype Attribution = Attribution(creator: string, at: Time)

  datatype PersistedRow = PersistedRow(
    record: PersistedRecord, versions: seq<PersistedVersion>, attribution: Attribution)

  function AsLiteral(s: State): string {
    match s
    case Mutable => "mutable"
    case Snapshot => "snapshot"
    case Fixed => "fixed"
  }

  function FromLiteral(s: string): Result<State, DbError> {
    if s == "mutable" then Ok(Mutable)
    else if s == "snapshot" then Ok(Snapshot)
    else if s == "fixed" then Ok(Fixed)
    else Err(UnknownState)
  }

  function KindToString(k: Kind): string {
    match k
    case Log => "log"
    case Fix => "fix"
    case Dataset => "dataset"
    case Asset => "asset"
    case Custom(name) => name
  }

  /** Built-in names win; anything else is custom. */
  function KindFromString(s: string): Kind {
    match s
    case "log" => Log
    case "fix" => Fix
    case "dataset" => Dataset
    case "asset" => Asset
    case _ => Custom(s)
  }

  /** The kind of a create request; the empty name is refused. */
  function ParseKind(raw: string): Option<Kind> {
    if raw == "" then None else Some(KindFromString(raw))
  }

  /** A custom kind spelled like a built-in one. */
  predicate Disguised(k: Kind) {
    k.Custom? && k.name in {"log", "fix", "dataset", "asset"}
  }

  function VersionToPersisted(v: Version, recordId: Uuid, now: Time): PersistedVersion {
    PersistedVersion(v.id, recordId, v.body, now)
  }

  function VersionFromPersisted(v: PersistedVersion): Version {
    Version(v.id, v.body)
  }

  function VersionsFromPersisted(vs: seq<PersistedVersion>): (r: seq<Version>)
    ensures |r| == |vs|
  {
    seq(|vs|, i requires 0 <= i < |vs| => VersionFromPersisted(vs[i]))
  }

  /** The row stored for `r`; every timestamp is the same reading of the clock. */
  function RecordToRow(r: Record, creator: string, now: Time): PersistedRow {
    PersistedRow(
      PersistedRecord(r.id, r.state, KindToString(r.kind),
                      if r.hash.Some? then Some(HexOf(r.hash.value)) else None, now, now),
      seq(|r.versions|, i requires 0 <= i < |r.versions| => VersionToPersisted(r.versions[i], r.id, now)),
      Attribution(creator, now))
  }

  /** Loads a row as a mutable or snapshot record: no digest, at least one version. */
  function TryIntoUnfixed(row: PersistedRow, expected: State): Result<Record, DbError>
    requires !expected.Fixed?
  {
    if row.record.state != expected then Err(StateMismatch)
    else if row.record.contentHash.Some? then Err(UnexpectedContentHash(row.record.id))
    else if row.versions == [] then Err(EmptyVersionChain(row.record.id))
    else Ok(Record(expected, row.record.id, KindFromString(row.record.kind), None, VersionsFromPersisted(row.versions)))
  }

  /** Loads a row as a fixed record: a digest that parses, at least one version. */
  function TryIntoFixed(row: PersistedRow): Result<Record, DbError> {
    if row.record.state != Fixed then Err(StateMismatch)
    else if row.record.contentHash.None? then Err(MissingContentHash(row.record.id))
    else
      match ParseHex(row.record.contentHash.value)
      case Err(e) => Err(e)
      case Ok(h) =>
        if row.versions == [] then Err(EmptyVersionChain(row.record.id))
        else Ok(Record(Fixed, row.record.id, KindFromString(row.record.kind), Some(h), VersionsFromPersisted(row.versions)))
  }

  /** Loads a row in whichever state it says it is. */
  function RowToAny(row: PersistedRow): Result<Record, DbError> {
    if row.record.state.Fixed? then TryIntoFixed(row) else TryIntoUnfixed(row, row.record.state)
  }

  /** The state and digest columns fit together: a digest exactly on fixed rows, and one that parses. */
  predicate HashFits(state: State, contentHash: Option<string>) {
    && (state.Fixed? <==> contentHash.Some?)
    && (contentHash.Some? ==> ParseHex(contentHash.value).Ok?)
  }

  /** The row an HTTP response shows for a loaded record; all its times are the edge's. */
  function RowOf(r: Record, a: Attribution): PersistedRow {
    RecordToRow(r, a.creator, a.at)
  }

  lemma StateLiteralRoundTrip(s: State, text: string)
    ensures FromLiteral(text) == Ok(s) <==> text == AsLiteral(s)
  {
    assert AsLiteral(Mutable)[0] == 'm' && AsLiteral(Snapshot)[0] == 's' && AsLiteral(Fixed)[0] == 'f';
  }

  /** A kind survives storage exactly when it is not a custom kind with a built-in name. */
  lemma KindRoundTrip(k: Kind)
    ensures KindFromString(KindToString(k)) == k <==> !Disguised(k)
  {
  }

  /** Request parsing yields every kind but the disguised ones and the empty custom name. */
  lemma ParsedKindsRoundTrip(k: Kind)
    ensures (exists raw :: ParseKind(raw) == Some(k)) <==> !Disguised(k) && k != Custom("")
  {
    KindRoundTrip(k);
    if !Disguised(k) && k != Custom("") {
      assert ParseKind(KindToString(k)) == Some(k);
    }
    if raw :| ParseKind(raw) == Some(k) {
      assert KindToString(k) == raw;
    }
  }

  /** Each typed load succeeds exactly on rows of its state whose columns and chain fit. */
  lemma TryIntoConditions(row: PersistedRow, expected: State)
    ensures (if expected.Fixed? then TryIntoFixed(row) else TryIntoUnfixed(row, expected)).Ok? <==>
            row.record.state == expected && HashFits(expected, row.record.contentHash) && row.versions != []
  {
  }

  /** A load that fails says what is wrong: the state before the digest column, the digest column before the chain. */
  lemma TryIntoErrors(row: PersistedRow, expected: State)
    ensures var r := if expected.Fixed? then TryIntoFixed(row) else TryIntoUnfixed(row, expected);
            var fits := row.record.state == expected;
            && (r == Err(StateMismatch) <==> !fits)
            && (r == Err(MissingContentHash(row.record.id)) <==> fits && expected.Fixed? && row.record.contentHash.None?)
            && (r == Err(UnexpectedContentHash(row.record.id)) <==> fits && !expected.Fixed? && row.record.contentHash.Some?)
            && (r == Err(MalformedHash) <==> fits && expected.Fixed? && row.record.contentHash.Some?
                                             && ParseHex(row.record.contentHash.value).Err?)
            && (r == Err(EmptyVersionChain(row.record.id)) <==> HashFits(expected, row.record.contentHash) && fits && row.versions == [])
  {
  }

  /** Storing a proper record and loading it gives the same record, exactly when its kind is not disguised. */
  lemma RowRoundTrip(r: Record, creator: string, now: Time)
    requires Proper(r)
    ensures RowToAny(RecordToRow(r, creator, now)).Ok?
    ensures RowToAny(RecordToRow(r, creator, now)) == Ok(r) <==> !Disguised(r.kind)
  {
    KindRoundTrip(r.kind);
    if r.hash.Some? {
      ParseOfDisplay(r.hash.value);
    }
    assert VersionsFromPersisted(RecordToRow(r, creator, now).versions) == r.versions;
  }

  /** What a row loads as does not depend on its timestamps or its creator. */
  lemma LoadIgnoresTimes(row: PersistedRow, other: PersistedRow)
    requires row.record.(createdAt := 0, updatedAt := 0) == other.record.(createdAt := 0, updatedAt := 0)
    requires |row.versions| == |other.versions|
    requires forall i | 0 <= i < |row.versions| ::
               VersionFromPersisted(row.versions[i]) == VersionFromPersisted(other.versions[i])
    ensures RowToAny(row) == RowToAny(other)
  {
    assert VersionsFromPersisted(row.versions) == VersionsFromPersisted(other.versions);
  }

  /** The row a response shows reads back as the record shown, unless its kind
      is disguised, and carries the attribution shown and its time throughout. */
  lemma ShownRowReadsBack(r: Record, a: Attribution)
    requires Proper(r)
    ensures RowToAny(RowOf(r, a)) == Ok(r) <==> !Disguised(r.kind)
    ensures RowOf(r, a).attribution == a
    ensures RowOf(r, a).record.createdAt == a.at && RowOf(r, a).record.updatedAt == a.at
    ensures forall v | v in RowOf(r, a).versions :: v.recordId == r.id && v.createdAt == a.at
  {
    RowRoundTrip(r, a.creator, a.at);
  }
}
