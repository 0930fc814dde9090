/** Creator literals such as `creo_user:abc`: split at the first colon to be
    written, rendered by the database and stripped of backticks to be read. */
module Things {
  import opened Basics

  datatype Thing = Thing(table: string, key: string)

  /** Position of the first colon, or the length when there is none. */
  function FirstColon(s: string): (i: nat)
    ensures i <= |s|
    ensures i < |s| ==> s[i] == ':'
    ensures forall k | 0 <= k < i :: s[k] != ':'
  {
    if s == [] || s[0] == ':' then 0 else 1 + FirstColon(s[1..])
  }

  function ParseThing(s: string): Result<Thing, DbError> {
    var i := FirstColon(s);
    if i < |s| then Ok(Thing(s[..i], s[i + 1..])) else Err(MalformedThing)
  }

  /** How the database renders a record id as a string: the key may come in backticks. */
  function Render(t: Thing, quoted: bool): string {
    if quoted then t.table + ":`" + t.key + "`" else t.table + ":" + t.key
  }

  function StripBackticks(s: string): string {
    if s == [] then []
    else if s[0] == '`' then StripBackticks(s[1..])
    else [s[0]] + StripBackticks(s[1..])
  }

  /** The literal read back for a creator. */
  function Literal(t: Thing): string {
    StripBackticks(t.table + ":" + t.key)
  }

  /** Tag written for a request: the subject of the token, or a fixed name without one. */
  function CreatorFromClaims(sub: Option<string>): string {
    match sub
    case Some(s) => "creo_user:" + s
    case None => "creo_user:anonymous"
  }

  /** The user a request acts for: the subject of its token, or the anonymous one. */
  function Who(sub: Option<string>): string {
    if sub.Some? then sub.value else "anonymous"
  }

  lemma {:induction false} StripConcat(a: string, b: string)
    ensures StripBackticks(a + b) == StripBackticks(a) + StripBackticks(b)
  {
    if a == [] {
      assert a + b == b;
    } else {
      assert (a + b)[1..] == a[1..] + b;
      StripConcat(a[1..], b);
    }
  }

  lemma {:induction false} StripLength(s: string)
    ensures |StripBackticks(s)| <= |s|
    ensures StripBackticks(s) == s <==> '`' !in s
  {
    if s != [] {
      StripLength(s[1..]);
      if s[0] != '`' {
        assert s == [s[0]] + s[1..];
        assert StripBackticks(s)[1..] == StripBackticks(s[1..]);
      }
    }
  }

  /** Quoting is invisible after stripping, whichever way the database renders. */
  lemma RenderedReadsAsLiteral(t: Thing, quoted: bool)
    ensures StripBackticks(Render(t, quoted)) == Literal(t)
  {
    if quoted {
      assert Render(t, true) == (t.table + ":") + ("`" + t.key + "`");
      StripConcat(t.table + ":", "`" + t.key + "`");
      assert "`" + t.key + "`" == "`" + (t.key + "`");
      StripConcat("`", t.key + "`");
      StripConcat(t.key, "`");
      assert StripBackticks("`") == [];
      StripConcat(t.table + ":", t.key);
      assert StripBackticks(t.key + "`") == StripBackticks(t.key);
    }
  }

  /** A creator literal reads back as written exactly when it has no backtick. */
  lemma CreatorRoundTrip(s: string)
    requires ParseThing(s).Ok?
    ensures Literal(ParseThing(s).value) == s <==> '`' !in s
  {
    var i := FirstColon(s);
    assert s == s[..i] + ":" + s[i + 1..];
    StripLength(s);
  }

  /** A table name without a colon and any key, joined by a colon, split into the two. */
  lemma JoinedParses(table: string, key: string)
    requires ':' !in table
    ensures ParseThing(table + ":" + key) == Ok(Thing(table, key))
  {
    var s := table + ":" + key;
    assert s[|table|] == ':';
    assert forall k | 0 <= k < |table| :: s[k] == table[k];
    assert FirstColon(s) == |table|;
    assert s[..|table|] == table && s[|table| + 1..] == key;
  }

  lemma TagParses(who: string)
    ensures ParseThing("creo_user:" + who) == Ok(Thing("creo_user", who))
  {
    assert "creo_user:" + who == "creo_user" + ":" + who;
    JoinedParses("creo_user", who);
  }

  lemma TagQuotes(who: string)
    ensures '`' in "creo_user:" + who <==> '`' in who
  {
    var tag := "creo_user:";
    assert forall k | 0 <= k < |tag| :: tag[k] != '`';
  }

  /** The tag of a user splits into the user table and the whole subject, and
      reads back as written exactly when the subject has no backtick. */
  lemma UserTag(who: string)
    ensures ParseThing("creo_user:" + who) == Ok(Thing("creo_user", who))
    ensures Literal(Thing("creo_user", who)) == "creo_user:" + who <==> '`' !in who
  {
    TagParses(who);
    TagQuotes(who);
    CreatorRoundTrip("creo_user:" + who);
  }

  lemma TagOfClaims(sub: Option<string>)
    ensures CreatorFromClaims(sub) == "creo_user:" + Who(sub)
  {
    assert "creo_user:" + "anonymous" == "creo_user:anonymous";
  }

  /** Every creator the HTTP layer writes splits at its first colon. */
  lemma ClaimsParse(sub: Option<string>)
    ensures ParseThing(CreatorFromClaims(sub)) == Ok(Thing("creo_user", Who(sub)))
    ensures CreatorFromClaims(sub) == "creo_user:" + Who(sub)
  {
    TagOfClaims(sub);
    TagParses(Who(sub));
  }

  /** The literal of a stored creator splits back into that creator. */
  lemma ParseOfLiteral(t: Thing)
    requires ':' !in t.table && '`' !in t.table + t.key
    ensures ParseThing(Literal(t)) == Ok(t)
  {
    StripLength(t.table + ":" + t.key);
    JoinedParses(t.table, t.key);
  }

  /** Stored creators without quoting that read alike are the same. */
  lemma LiteralInjective(a: Thing, b: Thing)
    requires ':' !in a.table && ':' !in b.table
    requires '`' !in a.table + a.key && '`' !in b.table + b.key
    requires Literal(a) == Literal(b)
    ensures a == b
  {
    ParseOfLiteral(a);
    ParseOfLiteral(b);
  }
}
