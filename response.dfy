/**
 * rinse/response.py: a SOAP response.  The HTTP body is parsed, and the
 * first `/soapenv:Envelope/soapenv:Body` element is kept; the string form
 * of a response is its HTTP body decoded as UTF-8.
 */
module Response {
  import opened Base
  import opened Xml
  import opened Util
  import opened Message

  /** The part of a `requests` response that rinse reads. */
  datatype HttpResponse = HttpResponse(content: seq<byte>)

  /** `Response`: the HTTP response, its parsed document and the Body element. */
  datatype Response = Response(response: HttpResponse, doc: Node, body: Node)

  /** `doc.xpath('/soapenv:Envelope/soapenv:Body')[0]`: the first Body child of an Envelope root. */
  function BodyOf(doc: Node): (r: Result<Node>)
    ensures r.Ok? <==> Matches(doc, ENVELOPE) && exists j :: 0 <= j < |doc.children| && Matches(doc.children[j], BODY)
    ensures r.Ok? ==> r.value == doc.children[FirstNamed(doc.children, BODY)]
    ensures r.Err? ==> r.error == IndexError
  {
    TwoStepPath(doc, ENVELOPE, BODY);
    var found := SelectPath(doc, [ENVELOPE, BODY]);
    if !Matches(doc, ENVELOPE) then Err(IndexError)
    else if found == [] then
      assert forall j :: 0 <= j < |doc.children| ==> !Matches(doc.children[j], BODY) by {
        forall j | 0 <= j < |doc.children| ensures !Matches(doc.children[j], BODY) {
          assert doc.children[j] in doc.children;
        }
      }
      Err(IndexError)
    else
      NamedHead(doc.children, BODY);
      Ok(found[0])
  }

  /** `Response(response)`: a parse failure or a missing Body raises; otherwise all three are kept. */
  function Create(lx: Lxml, response: HttpResponse): (r: Result<Response>)
    ensures lx.parseBytes(response.content).Err? ==> r == Err(lx.parseBytes(response.content).error)
    ensures lx.parseBytes(response.content).Ok? ==>
      var doc := lx.parseBytes(response.content).value;
      && (r.Ok? <==> BodyOf(doc).Ok?)
      && (r.Ok? ==> r.value == Response(response, doc, BodyOf(doc).value))
      && (r.Err? ==> r.error == IndexError)
  {
    var doc :- lx.parseBytes(response.content);
    var body :- BodyOf(doc);
    Ok(Response(response, doc, body))
  }

  /** `str(response)`: the HTTP body decoded as UTF-8, independent of the parsed tree. */
  function ToString(resp: Response, decodeUtf8: seq<byte> -> Result<string>): (r: Result<string>)
    ensures r == decodeUtf8(resp.response.content)
  {
    decodeUtf8(resp.response.content)
  }

  /** The string form of a created response is the raw HTTP body, whatever was parsed out of it. */
  lemma ToStringIsContent(lx: Lxml, response: HttpResponse, decodeUtf8: seq<byte> -> Result<string>)
    requires Create(lx, response).Ok?
    ensures ToString(Create(lx, response).value, decodeUtf8) == decodeUtf8(response.content)
  {
  }

  /**
   * Reading the reply to an assembled envelope: when the HTTP body parses to
   * an envelope rinse builds, the response's Body is the envelope's own
   * Body element, holding the body that was sent.
   */
  lemma CreateOfEnvelope(lx: Lxml, response: HttpResponse, headers: seq<Node>, body: Node)
    requires lx.parseBytes(response.content) == Ok(Envelope(headers, body))
    ensures Create(lx, response).Ok?
    ensures Create(lx, response).value.body == Elem(NS_SOAPENV, "Body", map[], [body])
  {
    var env := Envelope(headers, body);
    EnvelopeParts(headers, body);
    assert Matches(env.children[1], BODY);
    assert !Matches(env.children[0], BODY);
  }
}
