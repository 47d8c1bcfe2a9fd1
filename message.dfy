/**
 * rinse/message.py: a SOAP 1.1 message.  It owns a namespace registry with
 * one cached element maker per prefix, an ordered list of SOAP header
 * elements, an optional body element and a dict of HTTP headers; it
 * assembles the envelope (section 4 of the SOAP 1.1 W3C Note) and describes
 * the HTTP POST that carries it (section 6.1.1: the SOAPAction header).
 */
module Message {
  import opened Base
  import opened Xml
  import opened Util

  const ENVELOPE: QName := QName(NS_SOAPENV, "Envelope")
  const HEADER: QName := QName(NS_SOAPENV, "Header")
  const BODY: QName := QName(NS_SOAPENV, "Body")

  /** The HTTP headers every new message starts with. */
  const XML_CONTENT_TYPE: map<string, string> := map["Content-Type" := "text/xml;charset=UTF-8"]

  /** A Python dict of HTTP headers; an object, because two holders may share one. */
  class HeaderDict {
    var items: map<string, string>

    constructor (items: map<string, string>)
      ensures this.items == items
    {
      this.items := items;
    }
  }

  /**
   * A `requests.Request` descriptor.  `payload` is the envelope tree that
   * `tostring(pretty_print=True, encoding='utf-8')` serialises.
   */
  datatype HttpRequest = HttpRequest(verb: string, url: string, payload: Node, headers: HeaderDict)

  /** The argument `soapenv.Body(self.body)` passes: the body element, or None. */
  function BodyArg(body: Option<Node>): Arg
  {
    if body.Some? then NodeArg(body.value) else NoneArg
  }

  /** `soapenv.Envelope(soapenv.Header(*headers), soapenv.Body(body))` for a body element. */
  function Envelope(headers: seq<Node>, body: Node): (r: Node)
    ensures Matches(r, ENVELOPE) && |r.children| == 2
  {
    Elem(NS_SOAPENV, "Envelope", map[], [
      Elem(NS_SOAPENV, "Header", map[], headers),
      Elem(NS_SOAPENV, "Body", map[], [body])])
  }

  /**
   * Read back through the fixed child paths, an assembled envelope has
   * exactly one Header, holding the header blocks in order, and exactly one
   * Body, holding the body; the Header comes first.
   */
  lemma EnvelopeParts(headers: seq<Node>, body: Node)
    ensures var env := Envelope(headers, body);
      && SelectPath(env, [ENVELOPE, HEADER]) == [Elem(NS_SOAPENV, "Header", map[], headers)]
      && SelectPath(env, [ENVELOPE, BODY]) == [Elem(NS_SOAPENV, "Body", map[], [body])]
      && |env.children| == 2 && Matches(env.children[0], HEADER) && Matches(env.children[1], BODY)
  {
    var env := Envelope(headers, body);
    TwoStepPath(env, ENVELOPE, HEADER);
    TwoStepPath(env, ENVELOPE, BODY);
    assert env.children[1..] == [env.children[1]];
    assert env.children[1..][1..] == [];
  }

  /** The headers of `request(url, action)`: a copy, plus SOAPAction exactly when an action is given. */
  function RequestHeaders(httpHeaders: map<string, string>, action: Option<string>): (r: map<string, string>)
    ensures action.Some? ==> r.Keys == httpHeaders.Keys + {"SOAPAction"} && r["SOAPAction"] == action.value
    ensures action.None? ==> r == httpHeaders
    ensures forall k :: k in httpHeaders && k != "SOAPAction" ==> k in r && r[k] == httpHeaders[k]
  {
    if action.Some? then httpHeaders["SOAPAction" := action.value] else httpHeaders
  }

  /**
   * The cases of rinse/tests/test_client.py on a new message: no SOAPAction
   * without an action, the action verbatim otherwise, even when empty.
   */
  lemma SoapActionOnNewMessage(action: Option<string>)
    ensures "SOAPAction" in RequestHeaders(XML_CONTENT_TYPE, action) <==> action.Some?
    ensures action.Some? ==> RequestHeaders(XML_CONTENT_TYPE, action)["SOAPAction"] == action.value
    ensures RequestHeaders(XML_CONTENT_TYPE, action)["Content-Type"] == "text/xml;charset=UTF-8"
  {
  }

  /** `url or self.url`: the explicit URL when truthy, else the message's own `url` attribute. */
  function Target(url: Option<string>, attribute: Option<string>): (r: Result<string>)
    ensures r.Err? <==> !Truthy(url) && attribute.None?
    ensures Truthy(url) ==> r == Ok(url.value)
    ensures !Truthy(url) && attribute.Some? ==> r == Ok(attribute.value)
    ensures r.Err? ==> r.error == AttributeError("url")
  {
    if Truthy(url) then Ok(url.value)
    else if attribute.Some? then Ok(attribute.value)
    else Err(AttributeError("url"))
  }

  function NodeArgs(nodes: seq<Node>): (r: seq<Arg>)
    ensures |r| == |nodes| && forall k :: 0 <= k < |r| ==> r[k] == NodeArg(nodes[k])
  {
    seq(|nodes|, k requires 0 <= k < |nodes| => NodeArg(nodes[k]))
  }

  /** A maker fed only elements builds the element from them unchanged. */
  lemma CallWithNodes(m: ElementMaker, local: string, nodes: seq<Node>)
    ensures m.Call(local, NodeArgs(nodes), map[]) == Ok(Elem(m.namespace, local, map[], nodes))
  {
    var r := m.Call(local, NodeArgs(nodes), map[]);
    assert r.Ok?;
    assert r.value.children == nodes;
  }

  class SoapMessage {
    /** Namespace map: prefix to URL; a prefix is bound at most once. */
    var nsmap: map<string, string>
    /** Cache of element makers by prefix. */
    var makers: map<string, ElementMaker>
    /** SOAP header elements, in emission order. */
    var headers: seq<Node>
    var body: Option<Node>
    /** The `url` attribute a caller may add; None while the attribute is absent. */
    var url: Option<string>
    const httpHeaders: HeaderDict

    /** Every bound prefix has exactly one cached maker, bound to that prefix's URL. */
    ghost predicate Valid()
      reads this
    {
      && nsmap.Keys == makers.Keys
      && forall p :: p in makers ==> makers[p].namespace == nsmap[p] && makers[p].coercesInts
    }

    constructor (body: Option<Node>)
      ensures Valid() && nsmap == map[] && makers == map[] && headers == [] && this.body == body
      ensures url == None && fresh(httpHeaders) && httpHeaders.items == XML_CONTENT_TYPE
    {
      nsmap := map[];
      makers := map[];
      headers := [];
      this.body := body;
      url := None;
      httpHeaders := new HeaderDict(XML_CONTENT_TYPE);
    }

    /** `msg[key]`. */
    method GetItem(key: string) returns (r: Result<string>)
      ensures key in httpHeaders.items ==> r == Ok(httpHeaders.items[key])
      ensures key !in httpHeaders.items ==> r == Err(KeyError(key))
    {
      if key in httpHeaders.items {
        r := Ok(httpHeaders.items[key]);
      } else {
        r := Err(KeyError(key));
      }
    }

    /** `msg[key] = val`: only the HTTP headers change. */
    method SetItem(key: string, val: string)
      modifies httpHeaders
      ensures httpHeaders.items == old(httpHeaders.items)[key := val]
    {
      httpHeaders.items := httpHeaders.items[key := val];
    }

    /** `del msg[key]`: only the HTTP headers change; a missing key raises KeyError. */
    method DelItem(key: string) returns (r: Outcome)
      modifies httpHeaders
      ensures key in old(httpHeaders.items) ==> r == Pass && httpHeaders.items == old(httpHeaders.items) - {key}
      ensures key !in old(httpHeaders.items) ==> r == Fail(KeyError(key)) && httpHeaders.items == old(httpHeaders.items)
    {
      if key in httpHeaders.items {
        httpHeaders.items := httpHeaders.items - {key};
        r := Pass;
      } else {
        r := Fail(KeyError(key));
      }
    }

    /**
     * `elementmaker(prefix, url)`: bind a new prefix and cache a maker for it;
     * a prefix already bound to the same URL yields its cached maker; one bound
     * to another URL raises ValueError and changes nothing.  No binding is
     * ever overwritten or removed.
     */
    method Elementmaker(prefix: string, url: string) returns (r: Result<ElementMaker>)
      requires Valid()
      modifies this`nsmap, this`makers
      ensures Valid()
      ensures prefix in old(nsmap) && old(nsmap)[prefix] != url ==>
        r == Err(NamespaceConflict(prefix, old(nsmap)[prefix]))
        && nsmap == old(nsmap) && makers == old(makers)
      ensures prefix in old(nsmap) && old(nsmap)[prefix] == url ==>
        r == Ok(old(makers)[prefix]) && nsmap == old(nsmap) && makers == old(makers)
      ensures prefix !in old(nsmap) ==>
        r.Ok? && fresh(r.value) && r.value.namespace == url
        && nsmap == old(nsmap)[prefix := url] && makers == old(makers)[prefix := r.value]
      ensures forall p :: p in old(nsmap) ==> p in nsmap && nsmap[p] == old(nsmap)[p]
    {
      if prefix in nsmap {
        var oldUrl := nsmap[prefix];
        if url != oldUrl {
          return Err(NamespaceConflict(prefix, oldUrl));
        }
      } else {
        nsmap := nsmap[prefix := url];
        var m := new ElementMaker(url, true);
        makers := makers[prefix := m];
      }
      r := Ok(makers[prefix]);
    }

    /**
     * `etree()`: bind 'soapenv', then build Envelope(Header(*headers),
     * Body(body)).  A message without a body binds 'soapenv' and then raises
     * TypeError, because the maker has no handler for a None child.
     */
    method Etree() returns (r: Result<Node>)
      requires Valid()
      modifies this`nsmap, this`makers
      ensures Valid()
      ensures "soapenv" in old(nsmap) && old(nsmap)["soapenv"] != NS_SOAPENV ==>
        r == Err(NamespaceConflict("soapenv", old(nsmap)["soapenv"]))
        && nsmap == old(nsmap) && makers == old(makers)
      ensures !("soapenv" in old(nsmap) && old(nsmap)["soapenv"] != NS_SOAPENV) ==>
        && nsmap == old(nsmap)["soapenv" := NS_SOAPENV]
        && (body.Some? ==> r == Ok(Envelope(headers, body.value)))
        && (body.None? ==> r == Err(TypeError))
      ensures "soapenv" in old(nsmap) ==> makers == old(makers)
      ensures "soapenv" !in old(nsmap) ==>
        "soapenv" in makers && fresh(makers["soapenv"]) && makers == old(makers)["soapenv" := makers["soapenv"]]
    {
      var soapenv :- Elementmaker("soapenv", NS_SOAPENV);
      CallWithNodes(soapenv, "Header", headers);
      var header := soapenv.Call("Header", NodeArgs(headers), map[]).value;
      if body.Some? {
        CallWithNodes(soapenv, "Body", [body.value]);
        assert NodeArgs([body.value]) == [BodyArg(body)];
      } else {
        assert [BodyArg(body)][0].NoneArg?;
      }
      var bodyElement :- soapenv.Call("Body", [BodyArg(body)], map[]);
      CallWithNodes(soapenv, "Envelope", [header, bodyElement]);
      r := soapenv.Call("Envelope", NodeArgs([header, bodyElement]), map[]);
    }

    /**
     * `request(url, action)`: a POST to `url or self.url` carrying the
     * envelope, with a fresh copy of the HTTP headers that gains SOAPAction
     * exactly when an action is given.  The message's own headers stay as
     * they were; building the envelope binds 'soapenv' as `etree()` does.
     */
    method Request(url: Option<string>, action: Option<string>) returns (r: Result<HttpRequest>)
      requires Valid()
      modifies this`nsmap, this`makers
      ensures Valid()
      ensures Target(url, this.url).Err? ==>
        r == Err(AttributeError("url")) && nsmap == old(nsmap) && makers == old(makers)
      ensures Target(url, this.url).Ok? && "soapenv" in old(nsmap) && old(nsmap)["soapenv"] != NS_SOAPENV ==>
        r == Err(NamespaceConflict("soapenv", old(nsmap)["soapenv"])) && nsmap == old(nsmap)
      ensures Target(url, this.url).Ok? && !("soapenv" in old(nsmap) && old(nsmap)["soapenv"] != NS_SOAPENV) ==>
        && nsmap == old(nsmap)["soapenv" := NS_SOAPENV]
        && (body.None? ==> r == Err(TypeError))
        && (body.Some? ==>
              && r.Ok? && r.value.verb == "POST" && r.value.url == Target(url, this.url).value
              && r.value.payload == Envelope(headers, body.value)
              && fresh(r.value.headers) && r.value.headers.items == RequestHeaders(httpHeaders.items, action))
      ensures Target(url, this.url).Err? || "soapenv" in old(nsmap) ==> makers == old(makers)
      ensures Target(url, this.url).Ok? && "soapenv" !in old(nsmap) ==>
        "soapenv" in makers && fresh(makers["soapenv"]) && makers == old(makers)["soapenv" := makers["soapenv"]]
    {
      var copy := new HeaderDict(httpHeaders.items);
      if action.Some? {
        copy.items := copy.items["SOAPAction" := action.value];
      }
      assert copy.items == RequestHeaders(httpHeaders.items, action);
      var target :- Target(url, this.url);
      var envelope :- Etree();
      r := Ok(HttpRequest("POST", target, envelope, copy));
    }
  }
}
