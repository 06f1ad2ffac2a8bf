/** The schema-driven generator of src/data_generator.py: the schema walker
    `generate_value`, the pattern resolver `generate_string_by_pattern` and the
    object assembler `generate_random_data`.

    Every generator takes the oracle `rng`, the position `pos` of its next draw
    and the regular-expression matcher `m`, and returns its value together
    with the position of the draw after the ones it used. */
module DataGenerator {
  import opened Json
  import opened Draws

  /** The one string the pattern resolver matches patterns against. */
  const REFERENCE: string := "https://example.com/api/1/json/public/123/abcABC"

  /** Length of a match of `re.match` against REFERENCE: the match is anchored
      at the start, so it is always a prefix. */
  type MatchLen = n: nat | n <= |REFERENCE|

  /** `re.match(pattern, REFERENCE)`: `None` when the pattern does not match,
      otherwise the length of the matched prefix. It is a parameter of the
      model because the regular-expression engine is not part of it. */
  type Matcher = string -> Option<MatchLen>

  // ---------------------------------------------------------------------
  // What the generator demands of its input. On a schema outside these
  // predicates the Python code raises (an empty `enum`, a `minimum` above
  // the `maximum`, a property schema that is not a mapping, ...).
  // ---------------------------------------------------------------------

  /** `schema_definition["type"] == name`. */
  predicate IsType(fs: Fields, name: string)
  {
    Get(fs, "type") == Some(JStr(name))
  }

  /** The five `type` values the walker dispatches on. */
  predicate HasKnownType(fs: Fields)
  {
    IsType(fs, "string") || IsType(fs, "integer") || IsType(fs, "boolean")
    || IsType(fs, "array") || IsType(fs, "object")
  }

  /** `schema_definition.get(key, default)` for an integer bound; a bool is
      an int in Python (`True` is 1). */
  function IntOr(o: Option<Json>, default: int): int
  {
    match o
    case Some(JInt(i)) => i
    case Some(JBool(b)) => if b then 1 else 0
    case _ => default
  }

  function Minimum(fs: Fields): int { IntOr(Get(fs, "minimum"), 0) }

  function Maximum(fs: Fields): int { IntOr(Get(fs, "maximum"), 100) }

  predicate AbsentOrInt(o: Option<Json>) { o.None? || o.value.JInt? || o.value.JBool? }

  predicate AbsentOrStr(o: Option<Json>) { o.None? || o.value.JStr? }

  /** A schema node on which `generate_value` returns without raising. */
  predicate WellFormed(node: Json)
    decreases node, 2, 0
  {
    match node
    case JNull => true
    case JStr(_) | JArr(_) =>
      // `"type" in node` and the others are substring or membership tests;
      // a hit makes `node["type"]` raise.
      !Mentions(node, "type") && !Mentions(node, "enum") && !Mentions(node, "anyOf")
    case JObj(fs) =>
      if IsType(fs, "string") then AbsentOrStr(Get(fs, "pattern"))
      else if IsType(fs, "integer") then
        AbsentOrInt(Get(fs, "minimum")) && AbsentOrInt(Get(fs, "maximum"))
        && Minimum(fs) <= Maximum(fs)
      else if IsType(fs, "boolean") then true
      else if IsType(fs, "array") then
        (match Get(fs, "items")
         case None => true
         case Some(items) => WellFormed(items))
      else if IsType(fs, "object") then AssemblerOk(node)
      else if Has(fs, "enum") then
        // `random.choice` needs a non-empty list or string.
        var e := Get(fs, "enum").value;
        (e.JArr? && |e.elems| > 0) || (e.JStr? && |e.s| > 0)
      else if Has(fs, "anyOf") then
        var a := Get(fs, "anyOf").value;
        (a.JArr? && |a.elems| > 0 && forall k :: 0 <= k < |a.elems| ==> WellFormed(a.elems[k]))
        || (a.JStr? && |a.s| > 0)
      else true
    case _ => false
  }

  /** A schema on which `generate_random_data` returns without raising. */
  predicate AssemblerOk(schema: Json)
    decreases schema, 1, 0
  {
    match schema
    case JObj(fs) =>
      (match Get(fs, "properties")
       case None => true
       case Some(props) => PropertiesOk(props))
    case JStr(_) | JArr(_) => !Mentions(schema, "properties")
    case _ => false
  }

  /** A `properties` mapping (`.items()` needs a dict) whose every property
      schema passes PropertyOk. */
  predicate PropertiesOk(props: Json)
    decreases props, 4, 0
  {
    props.JObj? && IsDict(props.fields) &&
    forall j :: 0 <= j < |props.fields| ==> PropertyOk(props.fields[j].1)
  }

  /** A property schema on which `"default" in prop_schema` and what follows
      do not raise: a mapping with `default`, or a well-formed node that is
      not `None` and, when it is a string or a list, does not mention
      `default`. */
  predicate PropertyOk(p: Json)
    decreases p, 3, 0
  {
    match p
    case JObj(fs) => Has(fs, "default") || WellFormed(p)
    case JStr(_) | JArr(_) => !Mentions(p, "default") && WellFormed(p)
    case _ => false
  }

  /** The property schema whose `default` is copied. */
  predicate HasDefault(p: Json)
  {
    p.JObj? && Has(p.fields, "default")
  }

  // ---------------------------------------------------------------------
  // The generators.
  // ---------------------------------------------------------------------

  /** `generate_string_by_pattern`: the matched prefix of REFERENCE when the
      pattern matches (a zero-length match is a match), otherwise a random
      string. It never loops and always returns a string. */
  function StringByPattern(pattern: string, rng: Rng, pos: nat, m: Matcher): (r: (string, nat))
    ensures m(pattern).Some? ==> r.0 <= REFERENCE && |r.0| == m(pattern).value && r.1 == pos
    ensures m(pattern).None? ==> IsRandomString(r.0) && r.1 == pos + 10
    ensures r.0 <= REFERENCE || IsRandomString(r.0)
  {
    match m(pattern)
    case Some(n) => (REFERENCE[..n], pos)
    case None => RandomString(rng, pos)
  }

  /** `generate_value`: null, then `type`, then `enum`, then `anyOf`, then null. */
  function GenerateValue(node: Json, rng: Rng, pos: nat, m: Matcher): (r: (Json, nat))
    requires WellFormed(node)
    decreases node, 2, 0
  {
    match node
    case JNull => (JNull, pos)
    case JStr(_) | JArr(_) => (JNull, pos)
    case JObj(fs) =>
      if IsType(fs, "string") then
        match Get(fs, "pattern")
        case Some(p) =>
          var (s, next) := StringByPattern(p.s, rng, pos, m);
          (JStr(s), next)
        case None =>
          var (s, next) := RandomString(rng, pos);
          (JStr(s), next)
      else if IsType(fs, "integer") then
        var lo, hi := Minimum(fs), Maximum(fs);
        (JInt(lo + Draw(rng, pos, hi - lo + 1)), pos + 1)
      else if IsType(fs, "boolean") then
        (JBool(Draw(rng, pos, 2) == 0), pos + 1)
      else if IsType(fs, "array") then
        var len := 1 + Draw(rng, pos, 5);
        match Get(fs, "items")
        case Some(items) =>
          var (es, next) := GenerateItems(items, len, rng, pos + 1, m);
          (JArr(es), next)
        case None =>
          // `get("items", {})`: every element is `generate_value({})`,
          // which is null and draws nothing (lemma EmptyItemsAreNulls).
          (JArr(seq(len, _ => JNull)), pos + 1)
      else if IsType(fs, "object") then
        var (doc, next) := Assemble(node, rng, pos, m);
        (JObj(doc), next)
      else if Has(fs, "enum") then
        match Get(fs, "enum").value
        case JArr(es) => (es[Draw(rng, pos, |es|)], pos + 1)
        case JStr(s) => (JStr([s[Draw(rng, pos, |s|)]]), pos + 1)
      else if Has(fs, "anyOf") then
        match Get(fs, "anyOf").value
        case JArr(alts) => GenerateValue(alts[Draw(rng, pos, |alts|)], rng, pos + 1, m)
        case JStr(_) =>
          // The chosen alternative is a one-character string, which yields
          // null (lemma OneCharNodeIsNull).
          (JNull, pos + 1)
      else (JNull, pos)
  }

  /** `[generate_value(items) for _ in range(n)]`, drawing element by element. */
  function GenerateItems(items: Json, n: nat, rng: Rng, pos: nat, m: Matcher): (r: (seq<Json>, nat))
    requires WellFormed(items)
    ensures |r.0| == n
    decreases items, 3, n
  {
    if n == 0 then ([], pos)
    else
      var (first, p) := GenerateValue(items, rng, pos, m);
      var (rest, next) := GenerateItems(items, n - 1, rng, p, m);
      ([first] + rest, next)
  }

  /** The document `generate_random_data` builds for `schema`, as a function
      of the draws; the method GenerateRandomData computes it by a loop. */
  function Assemble(schema: Json, rng: Rng, pos: nat, m: Matcher): (r: (Fields, nat))
    requires AssemblerOk(schema)
    decreases schema, 1, 0
  {
    if !schema.JObj? then ([], pos)
    else match Get(schema.fields, "properties")
      case None => ([], pos)
      case Some(props) => FieldsFrom(props, 0, rng, pos, m)
  }

  /** The entries generated for properties `j..` of `props`, in order. */
  function FieldsFrom(props: Json, j: nat, rng: Rng, pos: nat, m: Matcher): (r: (Fields, nat))
    requires PropertiesOk(props) && j <= |props.fields|
    decreases props, 4, |props.fields| - j
  {
    if j == |props.fields| then ([], pos)
    else
      var (v, p) := PropertyValue(props.fields[j].1, rng, pos, m);
      var (rest, next) := FieldsFrom(props, j + 1, rng, p, m);
      ([(props.fields[j].0, v)] + rest, next)
  }

  /** The value one property gets: its `default`, verbatim and without a
      draw, when the key is present (whatever its value); otherwise a value
      generated from the property schema. */
  function PropertyValue(p: Json, rng: Rng, pos: nat, m: Matcher): (r: (Json, nat))
    requires PropertyOk(p)
    decreases p, 3, 0
  {
    if HasDefault(p) then (Get(p.fields, "default").value, pos)
    else GenerateValue(p, rng, pos, m)
  }

  /** `generate_random_data`: start from an empty dict and assign one entry
      per declared property, in declaration order. */
  method GenerateRandomData(schema: Json, rng: Rng, pos: nat, m: Matcher) returns (doc: Fields, next: nat)
    requires AssemblerOk(schema)
    ensures (doc, next) == Assemble(schema, rng, pos, m)
  {
    doc, next := [], pos;
    if schema.JObj? && Has(schema.fields, "properties") {
      doc, next := AssignProperties(Get(schema.fields, "properties").value, rng, pos, m);
    }
  }

  /** The `for prop, prop_schema in schema["properties"].items()` loop. */
  method AssignProperties(props: Json, rng: Rng, pos: nat, m: Matcher) returns (doc: Fields, next: nat)
    requires PropertiesOk(props)
    ensures (doc, next) == FieldsFrom(props, 0, rng, pos, m)
  {
    doc, next := [], pos;
    var ps := props.fields;
    ghost var whole := FieldsFrom(props, 0, rng, pos, m);
    var j := 0;
    while j < |ps|
      invariant 0 <= j <= |ps|
      invariant |doc| == j && forall i :: 0 <= i < j ==> doc[i].0 == ps[i].0
      invariant doc + FieldsFrom(props, j, rng, next, m).0 == whole.0
      invariant FieldsFrom(props, j, rng, next, m).1 == whole.1
    {
      var (name, p) := ps[j];
      NewKey(doc, ps, j);
      var v;
      ghost var prev, prevNext := doc, next;
      if HasDefault(p) {
        v := Get(p.fields, "default").value;
      } else {
        var r := GenerateValue(p, rng, next, m);
        v, next := r.0, r.1;
      }
      assert (v, next) == PropertyValue(p, rng, prevNext, m);
      FieldsFromStep(props, j, rng, prevNext, m, v, next);
      doc := Put(doc, name, v);
      AppendOne(prev, (name, v), FieldsFrom(props, j + 1, rng, next, m).0);
      j := j + 1;
    }
    assert FieldsFrom(props, j, rng, next, m) == ([], next);
    assert doc == whole.0 && next == whole.1;
  }

  lemma AppendOne(a: Fields, x: (string, Json), b: Fields)
    ensures (a + [x]) + b == a + ([x] + b)
  {
  }

  /** One step of FieldsFrom: the entry for property `j`, then the rest. */
  lemma FieldsFromStep(props: Json, j: nat, rng: Rng, pos: nat, m: Matcher, v: Json, p: nat)
    requires PropertiesOk(props) && j < |props.fields|
    requires (v, p) == PropertyValue(props.fields[j].1, rng, pos, m)
    ensures FieldsFrom(props, j, rng, pos, m).0 == [(props.fields[j].0, v)] + FieldsFrom(props, j + 1, rng, p, m).0
    ensures FieldsFrom(props, j, rng, pos, m).1 == FieldsFrom(props, j + 1, rng, p, m).1
  {
  }

  /** In a dict, the key at position `j` is not among those before it, so
      assigning it to a dict holding those keys appends it. */
  lemma NewKey(doc: Fields, ps: Fields, j: nat)
    requires IsDict(ps) && j < |ps|
    requires |doc| == j && forall i :: 0 <= i < j ==> doc[i].0 == ps[i].0
    ensures !Has(doc, ps[j].0)
  {
  }
}
