/** The walker's dispatch order as statements about removing keys: a key that
    a higher-priority branch shadows can be deleted from the node without
    changing the value or the draws. */
module Precedence {
  import opened Json
  import opened Draws
  import opened DataGenerator

  /** A `None` node yields `None` and draws nothing. */
  lemma NullNodeYieldsNull(rng: Rng, pos: nat, m: Matcher)
    ensures WellFormed(JNull) && GenerateValue(JNull, rng, pos, m) == (JNull, pos)
  {
  }

  /** A recognised `type` wins: `enum` and `anyOf` are never consulted. */
  lemma TypeWinsOverEnumAndAnyOf(fs: Fields, rng: Rng, pos: nat, m: Matcher)
    requires WellFormed(JObj(fs)) && HasKnownType(fs)
    ensures var s := JObj(Without(Without(fs, "enum"), "anyOf"));
      WellFormed(s) && GenerateValue(s, rng, pos, m) == GenerateValue(JObj(fs), rng, pos, m)
  {
    SameTypedNode(fs, Without(Without(fs, "enum"), "anyOf"), rng, pos, m);
  }

  /** Two nodes with the same recognised `type` that differ at most in
      `enum` and `anyOf` generate the same value with the same draws. */
  lemma SameTypedNode(fs: Fields, s: Fields, rng: Rng, pos: nat, m: Matcher)
    requires WellFormed(JObj(fs)) && HasKnownType(fs)
    requires forall k :: k != "enum" && k != "anyOf" ==> Get(s, k) == Get(fs, k)
    ensures WellFormed(JObj(s)) && GenerateValue(JObj(s), rng, pos, m) == GenerateValue(JObj(fs), rng, pos, m)
  {
    assert Get(s, "type") == Get(fs, "type");
    if IsType(fs, "string") {
      assert Get(s, "pattern") == Get(fs, "pattern");
    } else if IsType(fs, "integer") {
      assert Get(s, "minimum") == Get(fs, "minimum");
      assert Get(s, "maximum") == Get(fs, "maximum");
    } else if IsType(fs, "array") {
      assert Get(s, "items") == Get(fs, "items");
    } else if IsType(fs, "object") {
      assert Get(s, "properties") == Get(fs, "properties");
      assert Assemble(JObj(s), rng, pos, m) == Assemble(JObj(fs), rng, pos, m);
    }
  }

  /** A `type` the walker does not recognise (such as "null") is ignored:
      the node behaves as if it had no `type` at all. */
  lemma UnknownTypeFallsThrough(fs: Fields, rng: Rng, pos: nat, m: Matcher)
    requires WellFormed(JObj(fs)) && !HasKnownType(fs)
    ensures var s := JObj(Without(fs, "type"));
      WellFormed(s) && GenerateValue(s, rng, pos, m) == GenerateValue(JObj(fs), rng, pos, m)
  {
    var s := Without(fs, "type");
    assert Get(s, "enum") == Get(fs, "enum");
    assert Get(s, "anyOf") == Get(fs, "anyOf");
  }

  /** Without a recognised `type`, `enum` wins over `anyOf`. */
  lemma EnumWinsOverAnyOf(fs: Fields, rng: Rng, pos: nat, m: Matcher)
    requires WellFormed(JObj(fs)) && !HasKnownType(fs) && Has(fs, "enum")
    ensures var s := JObj(Without(fs, "anyOf"));
      WellFormed(s) && GenerateValue(s, rng, pos, m) == GenerateValue(JObj(fs), rng, pos, m)
  {
    var s := Without(fs, "anyOf");
    assert Get(s, "type") == Get(fs, "type");
    assert Get(s, "enum") == Get(fs, "enum");
  }

  /** A mapping with none of `type`, `enum`, `anyOf` (for instance a bare
      `$ref`, or `{}`) yields null and draws nothing. */
  lemma NoDispatchKeyYieldsNull(fs: Fields, rng: Rng, pos: nat, m: Matcher)
    requires !Has(fs, "type") && !Has(fs, "enum") && !Has(fs, "anyOf")
    ensures WellFormed(JObj(fs)) && GenerateValue(JObj(fs), rng, pos, m) == (JNull, pos)
  {
    assert Get(fs, "type") == None;
  }

  /** A one-character string, the alternative `random.choice` picks from an
      `anyOf` that is a string, mentions none of the dispatch keys and so
      yields null. */
  lemma OneCharNodeIsNull(c: char, rng: Rng, pos: nat, m: Matcher)
    ensures WellFormed(JStr([c])) && GenerateValue(JStr([c]), rng, pos, m) == (JNull, pos)
  {
    ShortIsNoSubstring("type", [c]);
    ShortIsNoSubstring("enum", [c]);
    ShortIsNoSubstring("anyOf", [c]);
  }

  lemma ShortIsNoSubstring(t: string, s: string)
    requires |s| < |t|
    ensures !IsSubstring(t, s)
  {
  }

  /** `[generate_value({}) for _ in range(n)]` is `n` nulls and draws nothing,
      which is what the walker builds for an array without `items`. */
  lemma {:induction false} EmptyItemsAreNulls(n: nat, rng: Rng, pos: nat, m: Matcher)
    ensures WellFormed(JObj([]))
    ensures GenerateItems(JObj([]), n, rng, pos, m) == (seq(n, _ => JNull), pos)
  {
    NoDispatchKeyYieldsNull([], rng, pos, m);
    if n > 0 {
      EmptyItemsAreNulls(n - 1, rng, pos, m);
      assert seq(n, _ => JNull) == [JNull] + seq(n - 1, _ => JNull);
    }
  }
}
