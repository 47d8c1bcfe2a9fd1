/**
 * rinse/wsdl.py: a WSDL 1.1 document.  It finds the embedded XML Schema at
 * `/wsdl:definitions/wsdl:types/xsd:schema`, builds a validator from it and
 * validates SOAP message bodies.  `schema` and `xsd_validator` are cached
 * properties: computed on first read, stored on the instance, never
 * recomputed; a read that raises stores nothing.
 */
module Wsdl {
  import opened Base
  import opened Xml
  import opened Xsd
  import opened Message

  const NS_WSDL: string := "http://schemas.xmlsoap.org/wsdl/"

  const DEFINITIONS: QName := QName(NS_WSDL, "definitions")
  const TYPES: QName := QName(NS_WSDL, "types")
  const SCHEMA: QName := QName(NS_XSD, "schema")

  /** `root.xpath('/wsdl:definitions/wsdl:types/xsd:schema')[0]`; an empty result raises IndexError. */
  function SchemaOf(root: Node): (r: Result<Node>)
    ensures r.Err? ==> r.error == IndexError
    ensures r.Ok? ==> Matches(r.value, SCHEMA)
  {
    var found := SelectPath(root, [DEFINITIONS, TYPES, SCHEMA]);
    if found == [] then Err(IndexError)
    else
      SelectPathSound(root, [DEFINITIONS, TYPES, SCHEMA]);
      assert found[0] in found;
      Ok(found[0])
  }

  /** A schema is found exactly when the root is wsdl:definitions with a wsdl:types child holding an xsd:schema. */
  lemma SchemaOfFound(root: Node)
    ensures SchemaOf(root).Ok? <==>
      Matches(root, DEFINITIONS)
      && exists t, s :: t in root.children && Matches(t, TYPES) && s in t.children && Matches(s, SCHEMA)
  {
    ThreeStepPath(root, DEFINITIONS, TYPES, SCHEMA);
    if Matches(root, DEFINITIONS) {
      var types := Named(root.children, TYPES);
      if exists t, s :: t in root.children && Matches(t, TYPES) && s in t.children && Matches(s, SCHEMA) {
        var t, s :| t in root.children && Matches(t, TYPES) && s in t.children && Matches(s, SCHEMA);
        StepMembers(types, SCHEMA, s);
      }
      if Step(types, SCHEMA) != [] {
        var s := Step(types, SCHEMA)[0];
        StepMembers(types, SCHEMA, s);
      }
    }
  }

  /** The schema found is the first xsd:schema child of the first wsdl:types child, when that has one. */
  lemma SchemaOfFirst(root: Node)
    requires Matches(root, DEFINITIONS)
    requires exists k :: 0 <= k < |root.children| && Matches(root.children[k], TYPES)
    requires var t := root.children[FirstNamed(root.children, TYPES)];
      exists j :: 0 <= j < |t.children| && Matches(t.children[j], SCHEMA)
    ensures var t := root.children[FirstNamed(root.children, TYPES)];
      SchemaOf(root) == Ok(t.children[FirstNamed(t.children, SCHEMA)])
  {
    var t := root.children[FirstNamed(root.children, TYPES)];
    var types := Named(root.children, TYPES);
    assert t in types;
    NamedHead(root.children, TYPES);
    var j :| 0 <= j < |t.children| && Matches(t.children[j], SCHEMA);
    assert t.children[j] in Named(t.children, SCHEMA);
    NamedHead(t.children, SCHEMA);
    StepHead(types, SCHEMA, 0);
    ThreeStepPath(root, DEFINITIONS, TYPES, SCHEMA);
  }

  /** The validator `xsd_validator` computes on first read: IndexError or XMLSchemaParseError, else one over the schema. */
  function ValidatorOf(lx: Lxml, root: Node): (r: Result<XsdValidator>)
    ensures r.Ok? <==> SchemaOf(root).Ok? && lx.compiles(SchemaOf(root).value)
    ensures r.Ok? ==> r.value.root == SchemaOf(root).value
  {
    var schema :- SchemaOf(root);
    NewXsdValidator(lx, schema)
  }

  /**
   * `WSDL`.  Its two properties use the `cached_property` descriptor that
   * `Util.CachedProperty` models, inlined here as one Option field per
   * property so that the contracts can name the cached values.
   */
  class Wsdl {
    const root: Node
    /** `instance.__dict__['schema']`, once the property has been read successfully. */
    var schema: Option<Node>
    /** `instance.__dict__['xsd_validator']`, likewise. */
    var validator: Option<XsdValidator>

    /** A cached value is what the property computes; a validator is only cached after its schema. */
    ghost predicate Valid()
      reads this
    {
      && (schema.Some? ==> SchemaOf(root) == Ok(schema.value))
      && (validator.Some? ==> schema.Some? && validator.value.root == schema.value)
    }

    constructor (root: Node)
      ensures Valid() && this.root == root && schema.None? && validator.None?
    {
      this.root := root;
      schema := None;
      validator := None;
    }

    /** `from_file(path)` / `from_url(url)`: parse the document, then wrap it. */
    static method Load(lx: Lxml, location: string) returns (r: Result<Wsdl>)
      ensures lx.parsePath(location).Err? ==> r == Err(lx.parsePath(location).error)
      ensures lx.parsePath(location).Ok? ==>
        r.Ok? && fresh(r.value) && r.value.Valid() && r.value.root == lx.parsePath(location).value
        && r.value.schema.None? && r.value.validator.None?
    {
      var doc :- lx.parsePath(location);
      var w := new Wsdl(doc);
      r := Ok(w);
    }

    /** The `schema` property: every read yields what the first one computed. */
    method Schema() returns (r: Result<Node>)
      requires Valid()
      modifies this`schema
      ensures Valid()
      ensures r == SchemaOf(root)
      ensures old(schema).Some? ==> schema == old(schema)
      ensures old(schema).None? ==> schema == (if r.Ok? then Some(r.value) else None)
    {
      if schema.Some? {
        return Ok(schema.value);
      }
      r := SchemaOf(root);
      if r.Ok? {
        schema := Some(r.value);
      }
    }

    /** The `xsd_validator` property: built once from the (cached) schema. */
    method XsdValidatorProperty(lx: Lxml) returns (r: Result<XsdValidator>)
      requires Valid()
      modifies this`schema, this`validator
      ensures Valid()
      ensures old(validator).Some? ==> r == Ok(old(validator).value) && validator == old(validator) && schema == old(schema)
      ensures old(validator).None? ==> r == ValidatorOf(lx, root)
      ensures old(validator).None? ==> validator == (if r.Ok? then Some(r.value) else None)
      ensures r.Ok? ==> SchemaOf(root).Ok? && r.value.root == SchemaOf(root).value
      ensures old(validator).None? ==> schema == (if SchemaOf(root).Ok? then Some(SchemaOf(root).value) else None)
    {
      if validator.Some? {
        return Ok(validator.value);
      }
      var s :- Schema();
      var v :- NewXsdValidator(lx, s);
      validator := Some(v);
      r := Ok(v);
    }

    /** `is_valid(soapmsg)`: the verdict on the message's body element. */
    method IsValid(lx: Lxml, msg: SoapMessage) returns (r: Result<bool>)
      requires Valid()
      modifies this`schema, this`validator
      ensures Valid()
      ensures old(validator).None? && ValidatorOf(lx, root).Err? ==> r == Err(ValidatorOf(lx, root).error)
      ensures (old(validator).Some? || ValidatorOf(lx, root).Ok?) && (msg.body.None? || !msg.body.value.Elem?) ==> r == Err(TypeError)
      ensures r.Ok? ==> msg.body.Some? && msg.body.value.Elem? && SchemaOf(root).Ok? && r.value == lx.accepts(SchemaOf(root).value, msg.body.value)
      ensures (old(validator).Some? || ValidatorOf(lx, root).Ok?) && msg.body.Some? && msg.body.value.Elem? ==> r.Ok?
      ensures old(validator).Some? ==> validator == old(validator) && schema == old(schema)
      ensures old(validator).None? ==>
        && validator == (if ValidatorOf(lx, root).Ok? then Some(ValidatorOf(lx, root).value) else None)
        && schema == (if SchemaOf(root).Ok? then Some(SchemaOf(root).value) else None)
    {
      var v :- XsdValidatorProperty(lx);
      r := Xsd.IsValid(lx, v, msg.body);
    }

    /** `validate(soapmsg)`: passes on an accepted body, raises DocumentInvalid on a rejected one. */
    method Validate(lx: Lxml, msg: SoapMessage) returns (r: Outcome)
      requires Valid()
      modifies this`schema, this`validator
      ensures Valid()
      ensures old(validator).None? && ValidatorOf(lx, root).Err? ==> r == Fail(ValidatorOf(lx, root).error)
      ensures (old(validator).Some? || ValidatorOf(lx, root).Ok?) && (msg.body.None? || !msg.body.value.Elem?) ==> r == Fail(TypeError)
      ensures r == Pass ==> msg.body.Some? && msg.body.value.Elem? && SchemaOf(root).Ok? && lx.accepts(SchemaOf(root).value, msg.body.value)
      ensures (old(validator).Some? || ValidatorOf(lx, root).Ok?) && msg.body.Some? && msg.body.value.Elem? ==>
        (r == Pass <==> lx.accepts(SchemaOf(root).value, msg.body.value))
      ensures old(validator).Some? ==> validator == old(validator) && schema == old(schema)
      ensures old(validator).None? ==>
        && validator == (if ValidatorOf(lx, root).Ok? then Some(ValidatorOf(lx, root).value) else None)
        && schema == (if SchemaOf(root).Ok? then Some(SchemaOf(root).value) else None)
    {
      var v := XsdValidatorProperty(lx);
      if v.Err? {
        return Fail(v.error);
      }
      r := Xsd.Validate(lx, v.value, msg.body);
    }
  }
}
