/** What the object assembler promises about the shape of its document, and
    the exact support of the primitive generators. */
module Assembly {
  import opened Json
  import opened Draws
  import opened DataGenerator
  import opened Conformance

  /** The properties a schema declares, in declaration order (none when the
      schema is not a mapping or has no `properties`). */
  function DeclaredProperties(schema: Json): (ps: Fields)
    requires AssemblerOk(schema)
    ensures IsDict(ps) && forall j :: 0 <= j < |ps| ==> PropertyOk(ps[j].1)
  {
    if !schema.JObj? then []
    else match Get(schema.fields, "properties")
      case None => []
      case Some(props) =>
        assert PropertiesOk(props);
        props.fields
  }

  /** The document has exactly the declared keys, in declaration order, and
      a property whose schema has a `default` key gets that value verbatim. */
  lemma DocumentShape(schema: Json, rng: Rng, pos: nat, m: Matcher)
    requires AssemblerOk(schema)
    ensures var doc, ps := Assemble(schema, rng, pos, m).0, DeclaredProperties(schema);
      Keys(doc) == Keys(ps) &&
      forall j :: 0 <= j < |ps| && HasDefault(ps[j].1) ==>
        doc[j].1 == Get(ps[j].1.fields, "default").value
  {
    DocumentConforms(schema, rng, pos, m);
  }

  /** Structure does not depend on the draws: two generations from one schema
      have the same keys in the same order. */
  lemma SameKeysForAnyDraws(schema: Json, rng: Rng, pos: nat, m: Matcher, rng': Rng, pos': nat, m': Matcher)
    requires AssemblerOk(schema)
    ensures Keys(Assemble(schema, rng, pos, m).0) == Keys(Assemble(schema, rng', pos', m').0)
  {
    DocumentShape(schema, rng, pos, m);
    DocumentShape(schema, rng', pos', m');
  }

  /** `required` is read by nobody: deleting it changes neither the document
      nor the draws, so a property missing from it is still generated. */
  lemma RequiredIsIgnored(schema: Json, rng: Rng, pos: nat, m: Matcher)
    requires AssemblerOk(schema) && schema.JObj?
    ensures var s := JObj(Without(schema.fields, "required"));
      AssemblerOk(s) && Assemble(s, rng, pos, m) == Assemble(schema, rng, pos, m)
  {
    assert Get(Without(schema.fields, "required"), "properties") == Get(schema.fields, "properties");
  }

  // ---------------------------------------------------------------------
  // Support: every value the conformance relation admits for a primitive
  // node is produced by some oracle.
  // ---------------------------------------------------------------------

  /** Every integer in [minimum, maximum] is a possible value. */
  lemma IntegerReachable(fs: Fields, x: int, pos: nat, m: Matcher)
    requires WellFormed(JObj(fs)) && IsType(fs, "integer")
    requires Minimum(fs) <= x <= Maximum(fs)
    ensures GenerateValue(JObj(fs), ConstRng(x - Minimum(fs)), pos, m).0 == JInt(x)
  {
    DrawConst(x - Minimum(fs), pos, Maximum(fs) - Minimum(fs) + 1);
  }

  /** Both booleans are possible values. */
  lemma BooleanReachable(fs: Fields, b: bool, pos: nat, m: Matcher)
    requires WellFormed(JObj(fs)) && IsType(fs, "boolean")
    ensures GenerateValue(JObj(fs), ConstRng(if b then 0 else 1), pos, m).0 == JBool(b)
  {
    DrawConst(if b then 0 else 1, pos, 2);
  }

  /** Every `enum` element is a possible value. */
  lemma EnumReachable(fs: Fields, k: nat, pos: nat, m: Matcher)
    requires WellFormed(JObj(fs)) && !HasKnownType(fs) && Has(fs, "enum")
    requires Get(fs, "enum").value.JArr? && k < |Get(fs, "enum").value.elems|
    ensures GenerateValue(JObj(fs), ConstRng(k), pos, m).0 == Get(fs, "enum").value.elems[k]
  {
    DrawConst(k, pos, |Get(fs, "enum").value.elems|);
  }

  /** With a string as `enum`, every one of its characters is a possible
      value. */
  lemma EnumCharReachable(fs: Fields, k: nat, pos: nat, m: Matcher)
    requires WellFormed(JObj(fs)) && !HasKnownType(fs) && Has(fs, "enum")
    requires Get(fs, "enum").value.JStr? && k < |Get(fs, "enum").value.s|
    ensures GenerateValue(JObj(fs), ConstRng(k), pos, m).0 == JStr([Get(fs, "enum").value.s[k]])
  {
    DrawConst(k, pos, |Get(fs, "enum").value.s|);
  }

  /** A nested `{"type": "object"}` without `properties` yields the empty
      mapping and draws nothing. */
  lemma EmptyObjectNode(fs: Fields, rng: Rng, pos: nat, m: Matcher)
    requires IsType(fs, "object") && !Has(fs, "properties")
    ensures WellFormed(JObj(fs)) && GenerateValue(JObj(fs), rng, pos, m) == (JObj([]), pos)
  {
    assert Get(fs, "properties") == None;
  }

  /** Every alphanumeric string of length 10 is a possible value of a
      `string` node without `pattern`. */
  lemma StringReachable(fs: Fields, s: string, pos: nat, m: Matcher)
    requires WellFormed(JObj(fs)) && IsType(fs, "string") && !Has(fs, "pattern")
    requires IsRandomString(s)
    ensures GenerateValue(JObj(fs), SpellRng(s, pos), pos, m).0 == JStr(s)
  {
    RandomStringReachable(s, pos);
  }

  /** The matcher that reports a match of length `n` for every pattern. */
  function MatchOf(n: MatchLen): Matcher
  {
    _ => Some(n)
  }

  /** The matcher that matches no pattern. */
  function NoMatch(): Matcher
  {
    _ => None
  }

  /** With `pattern`, every prefix of the reference URL is a possible value:
      the one the matcher reports a match of that length for. */
  lemma PatternPrefixReachable(fs: Fields, s: string, rng: Rng, pos: nat)
    requires WellFormed(JObj(fs)) && IsType(fs, "string") && Has(fs, "pattern")
    requires s <= REFERENCE
    ensures GenerateValue(JObj(fs), rng, pos, MatchOf(|s|)).0 == JStr(s)
  {
    var p := Get(fs, "pattern").value;
    assert MatchOf(|s|)(p.s) == Some(|s|);
    assert REFERENCE[..|s|] == s;
  }

  /** With `pattern`, every 10-character alphanumeric string is a possible
      value too: the fallback when the pattern does not match. */
  lemma PatternFallbackReachable(fs: Fields, s: string, pos: nat)
    requires WellFormed(JObj(fs)) && IsType(fs, "string") && Has(fs, "pattern")
    requires IsRandomString(s)
    ensures GenerateValue(JObj(fs), SpellRng(s, pos), pos, NoMatch()).0 == JStr(s)
  {
    var p := Get(fs, "pattern").value;
    assert NoMatch()(p.s) == None;
    RandomStringReachable(s, pos);
  }

  /** Every length from 1 to 5 is a possible length of an array. */
  lemma ArrayLengthReachable(fs: Fields, n: nat, pos: nat, m: Matcher)
    requires WellFormed(JObj(fs)) && IsType(fs, "array") && 1 <= n <= 5
    ensures |GenerateValue(JObj(fs), ConstRng(n - 1), pos, m).0.elems| == n
  {
    DrawConst(n - 1, pos, 5);
    var v := GenerateValue(JObj(fs), ConstRng(n - 1), pos, m).0;
    match Get(fs, "items")
    case None =>
      assert v == JArr(seq(n, _ => JNull));
    case Some(items) =>
      assert v == JArr(GenerateItems(items, n, ConstRng(n - 1), pos + 1, m).0);
  }
}
