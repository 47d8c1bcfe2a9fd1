/**
 * rinse/xsd.py: an XML Schema validator built from a schema element.  The
 * element is first copied into a tree of its own (`element_as_tree`), then
 * compiled by lxml; validation itself is lxml's and is the `accepts`
 * relation of the `Lxml` record.
 */
module Xsd {
  import opened Base
  import opened Xml

  const NS_XSD: string := "http://www.w3.org/2001/XMLSchema"

  /** `XSDValidator`: the copied schema root, known to compile. */
  datatype XsdValidator = XsdValidator(root: Node)

  /**
   * `XSDValidator(schema_root)`: etree.XMLSchema raises XMLSchemaParseError
   * when the copied root is not a schema lxml can compile.
   */
  function NewXsdValidator(lx: Lxml, schemaRoot: Node): (r: Result<XsdValidator>)
    ensures r.Ok? <==> lx.compiles(schemaRoot)
    ensures r.Ok? ==> r.value.root == schemaRoot
    ensures r.Err? ==> r.error == SchemaParseError
  {
    if lx.compiles(schemaRoot) then Ok(XsdValidator(schemaRoot)) else Err(SchemaParseError)
  }

  /**
   * `is_valid(doc)`: lxml accepts only an element or an element tree, and
   * raises TypeError for anything else (None, a string); otherwise the verdict.
   */
  function IsValid(lx: Lxml, v: XsdValidator, doc: Option<Node>): (r: Result<bool>)
    ensures doc.None? || !doc.value.Elem? <==> r == Err(TypeError)
    ensures doc.Some? && doc.value.Elem? ==> r == Ok(lx.accepts(v.root, doc.value))
  {
    if doc.None? || !doc.value.Elem? then Err(TypeError) else Ok(lx.accepts(v.root, doc.value))
  }

  /** `validate(doc)`: returns None for an accepted document, raises DocumentInvalid otherwise. */
  function Validate(lx: Lxml, v: XsdValidator, doc: Option<Node>): (r: Outcome)
    ensures doc.None? || !doc.value.Elem? ==> r == Fail(TypeError)
    ensures doc.Some? && doc.value.Elem? ==> (r == Pass <==> lx.accepts(v.root, doc.value))
    ensures doc.Some? && doc.value.Elem? && r.Fail? ==> r.error == DocumentInvalid
  {
    if doc.None? || !doc.value.Elem? then Fail(TypeError)
    else if lx.accepts(v.root, doc.value) then Pass
    else Fail(DocumentInvalid)
  }

  /** The two entry points agree: `validate` passes exactly when `is_valid` is True, and both refuse the same inputs. */
  lemma ValidateAgreesWithIsValid(lx: Lxml, v: XsdValidator, doc: Option<Node>)
    ensures Validate(lx, v, doc) == Pass <==> IsValid(lx, v, doc) == Ok(true)
    ensures Validate(lx, v, doc) == Fail(TypeError) <==> IsValid(lx, v, doc).Err?
  {
  }
}
