/** The scenarios of src/test_data_generator.py, proved for every oracle and
    every matcher instead of one random run each. */
module Scenarios {
  import opened Json
  import opened Draws
  import opened DataGenerator
  import opened Conformance

  /** `{"properties": {"value": schema}}`, the wrapper most tests use. */
  function Wrap(schema: Json): Json
  {
    JObj([("properties", JObj([("value", schema)]))])
  }

  /** The wrapped document is the single entry `value`, generated from `node`. */
  lemma WrapValue(node: Json, rng: Rng, pos: nat, m: Matcher)
    requires node.JObj? && WellFormed(node) && !Has(node.fields, "default")
    ensures AssemblerOk(Wrap(node))
    ensures var (v, next) := GenerateValue(node, rng, pos, m);
      Assemble(Wrap(node), rng, pos, m) == ([("value", v)], next)
  {
    var props := JObj([("value", node)]);
    GetSingle(("properties", props), "properties");
    assert PropertiesOk(props);
    var r := GenerateValue(node, rng, pos, m);
    assert r == PropertyValue(node, rng, pos, m);
    FieldsFromStep(props, 0, rng, pos, m, r.0, r.1);
    assert FieldsFrom(props, 1, rng, r.1, m) == ([], r.1);
    assert [("value", r.0)] + [] == [("value", r.0)];
  }

  lemma TestGenerateInteger(rng: Rng, pos: nat, m: Matcher)
    ensures var schema := Wrap(JObj([("type", JStr("integer")), ("minimum", JInt(10)), ("maximum", JInt(20))]));
      AssemblerOk(schema) &&
      var doc := Assemble(schema, rng, pos, m).0;
      |doc| == 1 && doc[0].0 == "value" && doc[0].1.JInt? && 10 <= doc[0].1.i <= 20
  {
    var a, b, c := ("type", JStr("integer")), ("minimum", JInt(10)), ("maximum", JInt(20));
    GetTriple(a, b, c, "type");
    GetTriple(a, b, c, "minimum");
    GetTriple(a, b, c, "maximum");
    GetTriple(a, b, c, "default");
    var node := JObj([a, b, c]);
    ValueConforms(node, rng, pos, m);
    WrapValue(node, rng, pos, m);
  }

  lemma TestGenerateString(rng: Rng, pos: nat, m: Matcher)
    ensures var schema := Wrap(JObj([("type", JStr("string"))]));
      AssemblerOk(schema) &&
      var doc := Assemble(schema, rng, pos, m).0;
      |doc| == 1 && doc[0].0 == "value" && doc[0].1.JStr? && |doc[0].1.s| == 10
      && forall i :: 0 <= i < 10 ==> IsAlnum(doc[0].1.s[i])
  {
    var a := ("type", JStr("string"));
    GetSingle(a, "type");
    GetSingle(a, "pattern");
    GetSingle(a, "default");
    var node := JObj([a]);
    ValueConforms(node, rng, pos, m);
    WrapValue(node, rng, pos, m);
  }

  lemma TestGenerateBoolean(rng: Rng, pos: nat, m: Matcher)
    ensures var schema := Wrap(JObj([("type", JStr("boolean"))]));
      AssemblerOk(schema) &&
      var doc := Assemble(schema, rng, pos, m).0;
      |doc| == 1 && doc[0].0 == "value" && doc[0].1 in [JBool(true), JBool(false)]
  {
    var a := ("type", JStr("boolean"));
    GetSingle(a, "type");
    GetSingle(a, "default");
    var node := JObj([a]);
    ValueConforms(node, rng, pos, m);
    WrapValue(node, rng, pos, m);
  }

  lemma TestGenerateEnum(rng: Rng, pos: nat, m: Matcher)
    ensures var colours := [JStr("red"), JStr("green"), JStr("blue")];
      var schema := Wrap(JObj([("enum", JArr(colours))]));
      AssemblerOk(schema) &&
      var doc := Assemble(schema, rng, pos, m).0;
      |doc| == 1 && doc[0].0 == "value" && doc[0].1 in colours
  {
    var a := ("enum", JArr([JStr("red"), JStr("green"), JStr("blue")]));
    GetSingle(a, "type");
    GetSingle(a, "enum");
    GetSingle(a, "default");
    var node := JObj([a]);
    ValueConforms(node, rng, pos, m);
    WrapValue(node, rng, pos, m);
  }

  lemma TestGenerateArray(rng: Rng, pos: nat, m: Matcher)
    ensures var schema := Wrap(JObj([("type", JStr("array")), ("items", JObj([("type", JStr("integer"))]))]));
      AssemblerOk(schema) &&
      var doc := Assemble(schema, rng, pos, m).0;
      |doc| == 1 && doc[0].0 == "value" && doc[0].1.JArr? && 1 <= |doc[0].1.elems| <= 5
      && forall k :: 0 <= k < |doc[0].1.elems| ==>
           doc[0].1.elems[k].JInt? && 0 <= doc[0].1.elems[k].i <= 100
  {
    var t := ("type", JStr("integer"));
    GetSingle(t, "type");
    GetSingle(t, "minimum");
    GetSingle(t, "maximum");
    var items := JObj([t]);
    var a, b := ("type", JStr("array")), ("items", items);
    GetPair(a, b, "type");
    GetPair(a, b, "items");
    GetPair(a, b, "default");
    var node := JObj([a, b]);
    ValueConforms(node, rng, pos, m);
    WrapValue(node, rng, pos, m);
  }

  /** `{"name": {"type": "string"}, "age": {"type": "integer"}}`. */
  function PersonProperties(): Json
  {
    JObj([("name", JObj([("type", JStr("string"))])), ("age", JObj([("type", JStr("integer"))]))])
  }

  lemma PersonPropertiesOk()
    ensures PropertiesOk(PersonProperties())
    ensures Keys(PersonProperties().fields) == ["name", "age"]
  {
    var n, a := ("type", JStr("string")), ("type", JStr("integer"));
    GetSingle(n, "type");
    GetSingle(n, "pattern");
    GetSingle(n, "default");
    GetSingle(a, "type");
    GetSingle(a, "minimum");
    GetSingle(a, "maximum");
    GetSingle(a, "default");
  }

  /** An object schema whose `properties` are the person's. */
  lemma PersonDocument(schema: Json, rng: Rng, pos: nat, m: Matcher)
    requires schema.JObj? && Get(schema.fields, "properties") == Some(PersonProperties())
    ensures AssemblerOk(schema)
    ensures var doc := Assemble(schema, rng, pos, m).0;
      Keys(doc) == ["name", "age"]
      && doc[0].1.JStr? && IsRandomString(doc[0].1.s)
      && doc[1].1.JInt? && 0 <= doc[1].1.i <= 100
  {
    PersonPropertiesOk();
    var props := PersonProperties();
    var n, a := props.fields[0].1, props.fields[1].1;
    GetSingle(n.fields[0], "type");
    GetSingle(n.fields[0], "pattern");
    GetSingle(n.fields[0], "default");
    GetSingle(a.fields[0], "type");
    GetSingle(a.fields[0], "minimum");
    GetSingle(a.fields[0], "maximum");
    GetSingle(a.fields[0], "default");
    DocumentConforms(schema, rng, pos, m);
    var doc := Assemble(schema, rng, pos, m).0;
    assert PropConforms(n, doc[0].1) && PropConforms(a, doc[1].1);
    assert Keys(doc) == [doc[0].0, doc[1].0];
  }

  lemma TestGenerateObject(rng: Rng, pos: nat, m: Matcher)
    ensures var schema := Wrap(JObj([("type", JStr("object")), ("properties", PersonProperties())]));
      AssemblerOk(schema) &&
      var doc := Assemble(schema, rng, pos, m).0;
      |doc| == 1 && doc[0].0 == "value" && doc[0].1.JObj?
      && var person := doc[0].1.fields;
      Keys(person) == ["name", "age"]
      && person[0].1.JStr? && IsRandomString(person[0].1.s)
      && person[1].1.JInt? && 0 <= person[1].1.i <= 100
  {
    var a, b := ("type", JStr("object")), ("properties", PersonProperties());
    GetPair(a, b, "type");
    GetPair(a, b, "properties");
    GetPair(a, b, "default");
    var node := JObj([a, b]);
    PersonDocument(node, rng, pos, m);
    WrapValue(node, rng, pos, m);
  }

  lemma TestRequiredFields(rng: Rng, pos: nat, m: Matcher)
    ensures var schema := JObj([("type", JStr("object")), ("properties", PersonProperties()),
                                ("required", JArr([JStr("name")]))]);
      AssemblerOk(schema) && Keys(Assemble(schema, rng, pos, m).0) == ["name", "age"]
  {
    var a, b, c := ("type", JStr("object")), ("properties", PersonProperties()), ("required", JArr([JStr("name")]));
    GetTriple(a, b, c, "properties");
    PersonDocument(JObj([a, b, c]), rng, pos, m);
  }

  /** A property with `"default": []` is exactly the empty list, never a
      generated array. */
  lemma DefaultEmptyList(rng: Rng, pos: nat, m: Matcher)
    ensures var schema := JObj([("properties", JObj([("tags", JObj([("type", JStr("array")), ("default", JArr([]))]))]))]);
      AssemblerOk(schema) && Assemble(schema, rng, pos, m) == ([("tags", JArr([]))], pos)
  {
    var tags := JObj([("type", JStr("array")), ("default", JArr([]))]);
    GetPair(("type", JStr("array")), ("default", JArr([])), "default");
    var props := JObj([("tags", tags)]);
    GetSingle(("properties", props), "properties");
    assert PropertiesOk(props);
    assert PropertyValue(tags, rng, pos, m) == (JArr([]), pos);
    assert FieldsFrom(props, 1, rng, pos, m) == ([], pos);
    assert [("tags", JArr([]))] + [] == [("tags", JArr([]))];
  }
}
