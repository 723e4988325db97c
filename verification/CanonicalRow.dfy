/**
 * Canonical serialization of an audit row and the two hash payloads built on it
 * (shared/audit_chain.py). The digest is any function from text to text.
 */
module CanonicalRow {
  import opened Basics
  import opened Text

  const COLUMN_COUNT: nat := 12
  const FIELD_SEP: char := '\U{1F}'
  const LINK_SEP: char := '\U{1E}'
  const NULL_MARK: char := '\U{00}'
  const GENESIS: string := "GENESIS"
  const LEGACY_TAG: string := "LEGACY:"

  /** A column value after `str()`: SQL NULL, or text. */
  type Field = Option<string>

  type Fields = f: seq<Field> | |f| == COLUMN_COUNT witness seq(COLUMN_COUNT, _ => None)

  type Digest = string -> string

  function FieldText(v: Field): string {
    match v case None => [NULL_MARK] case Some(t) => t
  }

  /** The field texts joined by the unit separator. */
  function Join(vs: seq<Field>): string
    requires vs != []
  {
    if |vs| == 1 then FieldText(vs[0]) else FieldText(vs[0]) + [FIELD_SEP] + Join(vs[1..])
  }

  /** `canonical_row`: refuses any sequence that is not twelve columns long. */
  function Canonical(vs: seq<Field>): Option<string> {
    if |vs| != COLUMN_COUNT then None else Some(Join(vs))
  }

  function Payload(prev: string, vs: seq<Field>): string
    requires vs != []
  {
    prev + [LINK_SEP] + Join(vs)
  }

  /** `compute_row_hash`: None where the source raises (empty parent, wrong arity). */
  function ComputeRowHash(sha: Digest, prev: string, vs: seq<Field>): Option<string> {
    if prev == "" then None else
    match Canonical(vs)
    case None => None
    case Some(body) => Some(sha(prev + [LINK_SEP] + body))
  }

  /** `legacy_anchor`: GENESIS on an empty ledger, else a digest of the last unchained id. */
  function LegacyAnchor(sha: Digest, lastId: Option<string>): string {
    match lastId case None => GENESIS case Some(id) => sha(LEGACY_TAG + id)
  }

  // ---------------------------------------------------------------------------
  // Injectivity: splitting undoes joining
  // ---------------------------------------------------------------------------

  /** A text column the ledger's writers produce: no unit separator, not the bare NUL marker. */
  ghost predicate CleanField(v: Field) {
    v.Some? ==> FIELD_SEP !in v.value && v.value != [NULL_MARK]
  }

  ghost predicate CleanFields(vs: seq<Field>) {
    forall i :: 0 <= i < |vs| ==> CleanField(vs[i])
  }

  function FieldOf(t: string): Field {
    if t == [NULL_MARK] then None else Some(t)
  }

  /** The inverse reading: cut at every unit separator. */
  function Split(s: string): (r: seq<Field>)
    ensures r != []
    decreases |s|
  {
    CutLonger(s, FIELD_SEP);
    var (head, tail) := Cut(s, FIELD_SEP);
    match tail
    case None => [FieldOf(head)]
    case Some(rest) => [FieldOf(head)] + Split(rest)
  }

  /** Splitting a canonical body gives back exactly the columns it was built from. */
  lemma {:induction false} SplitJoin(vs: seq<Field>)
    requires vs != [] && CleanFields(vs)
    ensures Split(Join(vs)) == vs
  {
    var t := FieldText(vs[0]);
    assert CleanField(vs[0]);
    assert FIELD_SEP !in t && FieldOf(t) == vs[0];
    if |vs| == 1 {
      CutNone(t, FIELD_SEP);
    } else {
      assert CleanFields(vs[1..]);
      SplitJoin(vs[1..]);
      CutAt(t, FIELD_SEP, Join(vs[1..]));
    }
  }

  /** With a separator-free parent the payload determines the parent and the body. */
  lemma PayloadParts(p: string, vs: seq<Field>, q: string, ws: seq<Field>)
    requires vs != [] && ws != [] && LINK_SEP !in p && LINK_SEP !in q
    requires Payload(p, vs) == Payload(q, ws)
    ensures p == q && Join(vs) == Join(ws)
  {
    CutAt(p, LINK_SEP, Join(vs));
    CutAt(q, LINK_SEP, Join(ws));
  }

  /** Equal payloads mean equal parents and equal columns, NULL and "" included. */
  lemma PayloadInjective(p: string, vs: seq<Field>, q: string, ws: seq<Field>)
    requires vs != [] && ws != [] && CleanFields(vs) && CleanFields(ws)
    requires LINK_SEP !in p && LINK_SEP !in q
    ensures Payload(p, vs) == Payload(q, ws) <==> p == q && vs == ws
  {
    if Payload(p, vs) == Payload(q, ws) {
      PayloadParts(p, vs, q, ws);
      SplitJoin(vs);
      SplitJoin(ws);
    }
  }

  /**
   * SHA-256 idealised: collision free, never the word GENESIS, hex output (so never
   * empty and never holding the record separator).
   */
  ghost predicate IdealDigest(sha: Digest) {
    && (forall x, y :: sha(x) == sha(y) ==> x == y)
    && (forall x :: sha(x) != GENESIS && sha(x) != "" && LINK_SEP !in sha(x))
  }

  function Unary(s: string): string {
    if s == "" then "" else seq(s[0] as int, _ => '1') + "0" + Unary(s[1..])
  }

  lemma {:induction false} UnaryInjective(s: string, t: string)
    requires Unary(s) == Unary(t)
    ensures s == t
  {
    if s != "" {
      CutAt(seq(s[0] as int, _ => '1'), '0', Unary(s[1..]));
    }
    if t != "" {
      CutAt(seq(t[0] as int, _ => '1'), '0', Unary(t[1..]));
    }
    if s != "" && t != "" {
      assert |seq(s[0] as int, _ => '1')| == |seq(t[0] as int, _ => '1')|;
      UnaryInjective(s[1..], t[1..]);
      assert s == [s[0]] + s[1..] && t == [t[0]] + t[1..];
    }
  }

  lemma {:induction false} UnaryAlphabet(s: string)
    ensures forall c :: c in Unary(s) ==> c == '0' || c == '1'
  {
    if s != "" {
      UnaryAlphabet(s[1..]);
    }
  }

  /** The idealisation is consistent: some function satisfies it. */
  lemma IdealDigestExists()
    ensures exists sha: Digest :: IdealDigest(sha)
  {
    var sha: Digest := s => "x" + Unary(s);
    forall x, y | sha(x) == sha(y)
      ensures x == y
    {
      assert sha(x)[1..] == Unary(x) && sha(y)[1..] == Unary(y);
      UnaryInjective(x, y);
    }
    forall x
      ensures sha(x) != GENESIS && sha(x) != "" && LINK_SEP !in sha(x)
    {
      UnaryAlphabet(x);
      assert sha(x)[0] == 'x' && GENESIS[0] == 'G';
    }
    assert IdealDigest(sha);
  }

  /** A legacy anchor is never a row hash, because its payload holds no record separator. */
  lemma AnchorIsNoRowHash(sha: Digest, id: string, prev: string, vs: seq<Field>)
    requires IdealDigest(sha) && vs != [] && LINK_SEP !in id
    ensures LegacyAnchor(sha, Some(id)) != sha(Payload(prev, vs))
  {
    var payload := Payload(prev, vs);
    assert payload[|prev|] == LINK_SEP;
    assert LINK_SEP in payload;
    assert LINK_SEP !in LEGACY_TAG + id;
  }
}
