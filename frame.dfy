/** The generators consume the draws in order: a generation that starts at
    draw `pos` reads no earlier draw, and ends at a position no smaller than
    `pos`. This is what makes each further call of the Python generator see
    fresh randomness, and it lets a single draw be steered. */
module Frame {
  import opened Json
  import opened Draws
  import opened DataGenerator

  lemma {:induction false} ValueFrame(node: Json, rng: Rng, rng': Rng, pos: nat, m: Matcher)
    requires WellFormed(node) && AgreeFrom(rng, rng', pos)
    ensures GenerateValue(node, rng, pos, m) == GenerateValue(node, rng', pos, m)
    ensures GenerateValue(node, rng, pos, m).1 >= pos
    decreases node, 2, 0
  {
    match node
    case JNull =>
    case JStr(_) | JArr(_) =>
    case JObj(fs) =>
      if IsType(fs, "string") {
        StringFrame(fs, rng, rng', pos, m);
      } else if IsType(fs, "integer") || IsType(fs, "boolean") {
        assert rng(pos) == rng'(pos);
      } else if IsType(fs, "array") {
        ArrayFrame(fs, rng, rng', pos, m);
      } else if IsType(fs, "object") {
        AssembleFrame(node, rng, rng', pos, m);
      } else {
        ChoiceFrame(fs, rng, rng', pos, m);
      }
  }

  lemma {:induction false} StringFrame(fs: Fields, rng: Rng, rng': Rng, pos: nat, m: Matcher)
    requires WellFormed(JObj(fs)) && IsType(fs, "string") && AgreeFrom(rng, rng', pos)
    ensures GenerateValue(JObj(fs), rng, pos, m) == GenerateValue(JObj(fs), rng', pos, m)
    ensures GenerateValue(JObj(fs), rng, pos, m).1 >= pos
  {
    ChoicesFrame(rng, rng', pos, 10);
    match Get(fs, "pattern")
    case None =>
      assert GenerateValue(JObj(fs), rng, pos, m) == (JStr(RandomString(rng, pos).0), pos + 10);
      assert GenerateValue(JObj(fs), rng', pos, m) == (JStr(RandomString(rng', pos).0), pos + 10);
    case Some(p) =>
      var r := StringByPattern(p.s, rng, pos, m);
      assert r == StringByPattern(p.s, rng', pos, m);
      assert GenerateValue(JObj(fs), rng, pos, m) == (JStr(r.0), r.1);
      assert GenerateValue(JObj(fs), rng', pos, m) == (JStr(r.0), r.1);
  }

  /** The `enum` and `anyOf` branches, and the final null. */
  lemma {:induction false} ChoiceFrame(fs: Fields, rng: Rng, rng': Rng, pos: nat, m: Matcher)
    requires WellFormed(JObj(fs)) && !HasKnownType(fs) && AgreeFrom(rng, rng', pos)
    ensures GenerateValue(JObj(fs), rng, pos, m) == GenerateValue(JObj(fs), rng', pos, m)
    ensures GenerateValue(JObj(fs), rng, pos, m).1 >= pos
    decreases JObj(fs), 1, 0
  {
    assert rng(pos) == rng'(pos);
    if !Has(fs, "enum") && Has(fs, "anyOf") {
      match Get(fs, "anyOf").value
      case JArr(alts) =>
        var c := Draw(rng, pos, |alts|);
        assert c == Draw(rng', pos, |alts|);
        ValueFrame(alts[c], rng, rng', pos + 1, m);
        assert GenerateValue(JObj(fs), rng, pos, m) == GenerateValue(alts[c], rng, pos + 1, m);
        assert GenerateValue(JObj(fs), rng', pos, m) == GenerateValue(alts[c], rng', pos + 1, m);
      case JStr(_) =>
    }
  }

  lemma {:induction false} ArrayFrame(fs: Fields, rng: Rng, rng': Rng, pos: nat, m: Matcher)
    requires WellFormed(JObj(fs)) && IsType(fs, "array") && AgreeFrom(rng, rng', pos)
    ensures GenerateValue(JObj(fs), rng, pos, m) == GenerateValue(JObj(fs), rng', pos, m)
    ensures GenerateValue(JObj(fs), rng, pos, m).1 >= pos
    decreases JObj(fs), 1, 0
  {
    assert rng(pos) == rng'(pos);
    var len := 1 + Draw(rng, pos, 5);
    assert len == 1 + Draw(rng', pos, 5);
    match Get(fs, "items")
    case None =>
      assert GenerateValue(JObj(fs), rng, pos, m) == (JArr(seq(len, _ => JNull)), pos + 1);
      assert GenerateValue(JObj(fs), rng', pos, m) == (JArr(seq(len, _ => JNull)), pos + 1);
    case Some(items) =>
      ItemsFrame(items, len, rng, rng', pos + 1, m);
      var r := GenerateItems(items, len, rng, pos + 1, m);
      assert GenerateValue(JObj(fs), rng, pos, m) == (JArr(r.0), r.1);
      assert GenerateValue(JObj(fs), rng', pos, m) == (JArr(r.0), r.1);
  }

  lemma {:induction false} ItemsFrame(items: Json, n: nat, rng: Rng, rng': Rng, pos: nat, m: Matcher)
    requires WellFormed(items) && AgreeFrom(rng, rng', pos)
    ensures GenerateItems(items, n, rng, pos, m) == GenerateItems(items, n, rng', pos, m)
    ensures GenerateItems(items, n, rng, pos, m).1 >= pos
    decreases items, 3, n
  {
    if n > 0 {
      ValueFrame(items, rng, rng', pos, m);
      ItemsFrame(items, n - 1, rng, rng', GenerateValue(items, rng, pos, m).1, m);
    }
  }

  lemma {:induction false} AssembleFrame(schema: Json, rng: Rng, rng': Rng, pos: nat, m: Matcher)
    requires AssemblerOk(schema) && AgreeFrom(rng, rng', pos)
    ensures Assemble(schema, rng, pos, m) == Assemble(schema, rng', pos, m)
    ensures Assemble(schema, rng, pos, m).1 >= pos
    decreases schema, 1, 0
  {
    if schema.JObj? {
      match Get(schema.fields, "properties")
      case None =>
      case Some(props) => FieldsFrame(props, 0, rng, rng', pos, m);
    }
  }

  lemma {:induction false} FieldsFrame(props: Json, j: nat, rng: Rng, rng': Rng, pos: nat, m: Matcher)
    requires PropertiesOk(props) && j <= |props.fields| && AgreeFrom(rng, rng', pos)
    ensures FieldsFrom(props, j, rng, pos, m) == FieldsFrom(props, j, rng', pos, m)
    ensures FieldsFrom(props, j, rng, pos, m).1 >= pos
    decreases props, 4, |props.fields| - j
  {
    if j < |props.fields| {
      var p := props.fields[j].1;
      if !HasDefault(p) {
        ValueFrame(p, rng, rng', pos, m);
      }
      FieldsFrame(props, j + 1, rng, rng', PropertyValue(p, rng, pos, m).1, m);
    }
  }

  /** Every `anyOf` alternative is a possible choice: steering the one draw
      that picks it makes the node generate exactly what the alternative
      generates from the next draw on. */
  lemma AnyOfAlternativeReachable(fs: Fields, k: nat, rng: Rng, pos: nat, m: Matcher)
    requires WellFormed(JObj(fs)) && !HasKnownType(fs) && !Has(fs, "enum") && Has(fs, "anyOf")
    requires Get(fs, "anyOf").value.JArr? && k < |Get(fs, "anyOf").value.elems|
    ensures var alt := Get(fs, "anyOf").value.elems[k];
      WellFormed(alt) &&
      GenerateValue(JObj(fs), Override(rng, pos, k), pos, m) == GenerateValue(alt, rng, pos + 1, m)
  {
    var alts := Get(fs, "anyOf").value.elems;
    assert Override(rng, pos, k)(pos) == k;
    ModOfSmall(k, |alts|);
    ValueFrame(alts[k], Override(rng, pos, k), rng, pos + 1, m);
  }
}
