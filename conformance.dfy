/** What a schema node admits, stated independently of how values are drawn,
    and the proof that every value the generator produces is admitted. */
module Conformance {
  import opened Json
  import opened Draws
  import opened DataGenerator

  /** The values `node` admits, following the same precedence as the walker:
      null node, then `type`, then `enum`, then `anyOf`, then null. */
  ghost predicate Conforms(node: Json, v: Json)
    decreases node, 2, 0
  {
    match node
    case JNull => v == JNull
    case JStr(_) | JArr(_) => v == JNull
    case JObj(fs) =>
      if IsType(fs, "string") then
        v.JStr? &&
        if Has(fs, "pattern") then v.s <= REFERENCE || IsRandomString(v.s)
        else IsRandomString(v.s)
      else if IsType(fs, "integer") then
        v.JInt? && Minimum(fs) <= v.i <= Maximum(fs)
      else if IsType(fs, "boolean") then
        v.JBool?
      else if IsType(fs, "array") then
        v.JArr? && 1 <= |v.elems| <= 5 &&
        match Get(fs, "items")
        case None => forall k :: 0 <= k < |v.elems| ==> v.elems[k] == JNull
        case Some(items) => forall k :: 0 <= k < |v.elems| ==> Conforms(items, v.elems[k])
      else if IsType(fs, "object") then
        v.JObj? && DocConforms(node, v.fields)
      else if Has(fs, "enum") then
        match Get(fs, "enum").value
        case JArr(es) => v in es
        case JStr(s) => v.JStr? && |v.s| == 1 && v.s[0] in s
        case _ => false
      else if Has(fs, "anyOf") then
        match Get(fs, "anyOf").value
        case JArr(alts) => exists k :: 0 <= k < |alts| && Conforms(alts[k], v)
        case JStr(_) => v == JNull
        case _ => false
      else v == JNull
    case _ => false
  }

  /** The documents an object schema admits: one entry per declared property,
      in declaration order, each its `default` verbatim when the property
      schema has that key and otherwise a value the property schema admits.
      No `properties` (or a schema that is not a mapping) admits only the
      empty document. */
  ghost predicate DocConforms(schema: Json, doc: Fields)
    decreases schema, 1, 0
  {
    if !schema.JObj? then doc == []
    else match Get(schema.fields, "properties")
    case None => doc == []
    case Some(props) =>
      props.JObj? && |doc| == |props.fields| &&
      forall j :: 0 <= j < |doc| ==>
        doc[j].0 == props.fields[j].0 && PropConforms(props.fields[j].1, doc[j].1)
  }

  ghost predicate PropConforms(p: Json, v: Json)
    decreases p, 3, 0
  {
    if HasDefault(p) then v == Get(p.fields, "default").value
    else Conforms(p, v)
  }

  /** Every value of `generate_value` conforms to its node. */
  lemma {:induction false} ValueConforms(node: Json, rng: Rng, pos: nat, m: Matcher)
    requires WellFormed(node)
    ensures Conforms(node, GenerateValue(node, rng, pos, m).0)
    decreases node, 2, 0
  {
    match node
    case JNull =>
    case JStr(_) | JArr(_) =>
    case JObj(fs) =>
      if IsType(fs, "string") || IsType(fs, "integer") || IsType(fs, "boolean") {
      } else if IsType(fs, "array") {
        var len := 1 + Draw(rng, pos, 5);
        match Get(fs, "items")
        case None =>
        case Some(items) => ItemsConform(items, len, rng, pos + 1, m);
      } else if IsType(fs, "object") {
        DocumentConforms(node, rng, pos, m);
      } else if Has(fs, "enum") {
      } else if Has(fs, "anyOf") {
        match Get(fs, "anyOf").value
        case JArr(alts) =>
          var c := Draw(rng, pos, |alts|);
          ValueConforms(alts[c], rng, pos + 1, m);
          assert 0 <= c < |alts| && Conforms(alts[c], GenerateValue(node, rng, pos, m).0);
        case JStr(_) =>
      }
  }

  /** Every element of an array conforms to `items`. */
  lemma {:induction false} ItemsConform(items: Json, n: nat, rng: Rng, pos: nat, m: Matcher)
    requires WellFormed(items)
    ensures forall k :: 0 <= k < n ==> Conforms(items, GenerateItems(items, n, rng, pos, m).0[k])
    decreases items, 3, n
  {
    if n > 0 {
      var (first, p) := GenerateValue(items, rng, pos, m);
      ValueConforms(items, rng, pos, m);
      ItemsConform(items, n - 1, rng, p, m);
    }
  }

  /** Every document of `generate_random_data` conforms to its schema. */
  lemma {:induction false} DocumentConforms(schema: Json, rng: Rng, pos: nat, m: Matcher)
    requires AssemblerOk(schema)
    ensures DocConforms(schema, Assemble(schema, rng, pos, m).0)
    decreases schema, 1, 0
  {
    if schema.JObj? {
      match Get(schema.fields, "properties")
      case None =>
      case Some(props) => FieldsConform(props, 0, rng, pos, m);
    }
  }

  /** The value of one property conforms to the property schema. */
  lemma PropertyConforms(p: Json, rng: Rng, pos: nat, m: Matcher)
    requires PropertyOk(p)
    ensures PropConforms(p, PropertyValue(p, rng, pos, m).0)
    decreases p, 3, 0
  {
    if !HasDefault(p) {
      ValueConforms(p, rng, pos, m);
    }
  }

  lemma {:induction false} FieldsConform(props: Json, j: nat, rng: Rng, pos: nat, m: Matcher)
    requires PropertiesOk(props) && j <= |props.fields|
    ensures var d := FieldsFrom(props, j, rng, pos, m).0;
      |d| == |props.fields| - j &&
      forall i :: 0 <= i < |d| ==>
        d[i].0 == props.fields[j + i].0 && PropConforms(props.fields[j + i].1, d[i].1)
    decreases props, 4, |props.fields| - j
  {
    if j < |props.fields| {
      var p := props.fields[j].1;
      var (v, p1) := PropertyValue(p, rng, pos, m);
      PropertyConforms(p, rng, pos, m);
      FieldsConform(props, j + 1, rng, p1, m);
      FieldsFromStep(props, j, rng, pos, m, v, p1);
      ConsEntries(props, j, v, FieldsFrom(props, j + 1, rng, p1, m).0);
    }
  }

  /** Prepending the entry of property `j` to conforming entries for
      properties `j + 1..` gives conforming entries for `j..`. */
  lemma ConsEntries(props: Json, j: nat, v: Json, rest: Fields)
    requires props.JObj? && j < |props.fields|
    requires PropConforms(props.fields[j].1, v)
    requires |rest| == |props.fields| - (j + 1)
    requires forall i :: 0 <= i < |rest| ==>
      rest[i].0 == props.fields[j + 1 + i].0 && PropConforms(props.fields[j + 1 + i].1, rest[i].1)
    ensures var d := [(props.fields[j].0, v)] + rest;
      |d| == |props.fields| - j &&
      forall i :: 0 <= i < |d| ==>
        d[i].0 == props.fields[j + i].0 && PropConforms(props.fields[j + i].1, d[i].1)
  {
    var d := [(props.fields[j].0, v)] + rest;
    forall i | 0 <= i < |d|
      ensures d[i].0 == props.fields[j + i].0 && PropConforms(props.fields[j + i].1, d[i].1)
    {
      if i > 0 {
        assert d[i] == rest[i - 1] && j + 1 + (i - 1) == j + i;
      }
    }
  }
}
