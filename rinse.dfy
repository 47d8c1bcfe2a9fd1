/**
 * rinse/__init__.py: the package's original SOAP message, kept beside
 * rinse/message.py.  It differs in three ways: its element makers are
 * lxml's own (int arguments are refused, not cast), `request` takes no
 * SOAP action, and the request it describes shares the message's HTTP
 * header dict instead of copying it.  The package's Response, SchemaCache,
 * ElementMakerCache and recursive_dict are the ones rinse/util.py and
 * rinse/response.py repeat; the Util and Response modules model both.
 */
module Rinse {
  import opened Base
  import opened Xml
  import opened Util
  import opened Message

  class SoapMessage {
    var nsmap: map<string, string>
    var makers: map<string, ElementMaker>
    var headers: seq<Node>
    var body: Option<Node>
    /** The `url` attribute a caller may add; None while the attribute is absent. */
    var url: Option<string>
    const httpHeaders: HeaderDict

    /** Every bound prefix has exactly one cached maker: lxml's own, bound to that prefix's URL. */
    ghost predicate Valid()
      reads this
    {
      && nsmap.Keys == makers.Keys
      && forall p :: p in makers ==> makers[p].namespace == nsmap[p] && !makers[p].coercesInts
    }

    constructor (body: Option<Node>)
      ensures Valid() && nsmap == map[] && makers == map[] && headers == [] && this.body == body
      ensures url == None && fresh(httpHeaders) && httpHeaders.items == XML_CONTENT_TYPE
    {
      nsmap := map[];
      makers := map[];
      headers := [];
      this.body := body;
      url := None;
      httpHeaders := new HeaderDict(XML_CONTENT_TYPE);
    }

    /** `msg[key]`. */
    method GetItem(key: string) returns (r: Result<string>)
      ensures key in httpHeaders.items ==> r == Ok(httpHeaders.items[key])
      ensures key !in httpHeaders.items ==> r == Err(KeyError(key))
    {
      if key in httpHeaders.items {
        r := Ok(httpHeaders.items[key]);
      } else {
        r := Err(KeyError(key));
      }
    }

    /** `msg[key] = val`. */
    method SetItem(key: string, val: string)
      modifies httpHeaders
      ensures httpHeaders.items == old(httpHeaders.items)[key := val]
    {
      httpHeaders.items := httpHeaders.items[key := val];
    }

    /** `del msg[key]`; a missing key raises KeyError. */
    method DelItem(key: string) returns (r: Outcome)
      modifies httpHeaders
      ensures key in old(httpHeaders.items) ==> r == Pass && httpHeaders.items == old(httpHeaders.items) - {key}
      ensures key !in old(httpHeaders.items) ==> r == Fail(KeyError(key)) && httpHeaders.items == old(httpHeaders.items)
    {
      if key in httpHeaders.items {
        httpHeaders.items := httpHeaders.items - {key};
        r := Pass;
      } else {
        r := Fail(KeyError(key));
      }
    }

    /** `elementmaker(prefix, url)`, with lxml's maker in the cache. */
    method Elementmaker(prefix: string, url: string) returns (r: Result<ElementMaker>)
      requires Valid()
      modifies this`nsmap, this`makers
      ensures Valid()
      ensures prefix in old(nsmap) && old(nsmap)[prefix] != url ==>
        r == Err(NamespaceConflict(prefix, old(nsmap)[prefix]))
        && nsmap == old(nsmap) && makers == old(makers)
      ensures prefix in old(nsmap) && old(nsmap)[prefix] == url ==>
        r == Ok(old(makers)[prefix]) && nsmap == old(nsmap) && makers == old(makers)
      ensures prefix !in old(nsmap) ==>
        r.Ok? && fresh(r.value) && r.value.namespace == url && !r.value.coercesInts
        && nsmap == old(nsmap)[prefix := url] && makers == old(makers)[prefix := r.value]
    {
      if prefix in nsmap {
        var oldUrl := nsmap[prefix];
        if url != oldUrl {
          return Err(NamespaceConflict(prefix, oldUrl));
        }
      } else {
        nsmap := nsmap[prefix := url];
        var m := new ElementMaker(url, false);
        makers := makers[prefix := m];
      }
      r := Ok(makers[prefix]);
    }

    /** `etree()`: the same envelope rinse/message.py builds, and the same TypeError without a body. */
    method Etree() returns (r: Result<Node>)
      requires Valid()
      modifies this`nsmap, this`makers
      ensures Valid()
      ensures "soapenv" in old(nsmap) && old(nsmap)["soapenv"] != NS_SOAPENV ==>
        r == Err(NamespaceConflict("soapenv", old(nsmap)["soapenv"]))
        && nsmap == old(nsmap) && makers == old(makers)
      ensures !("soapenv" in old(nsmap) && old(nsmap)["soapenv"] != NS_SOAPENV) ==>
        && nsmap == old(nsmap)["soapenv" := NS_SOAPENV]
        && (body.Some? ==> r == Ok(Envelope(headers, body.value)))
        && (body.None? ==> r == Err(TypeError))
      ensures "soapenv" in old(nsmap) ==> makers == old(makers)
      ensures "soapenv" !in old(nsmap) ==>
        "soapenv" in makers && fresh(makers["soapenv"]) && makers == old(makers)["soapenv" := makers["soapenv"]]
    {
      var soapenv :- Elementmaker("soapenv", NS_SOAPENV);
      CallWithNodes(soapenv, "Header", headers);
      var header := soapenv.Call("Header", NodeArgs(headers), map[]).value;
      if body.Some? {
        CallWithNodes(soapenv, "Body", [body.value]);
        assert NodeArgs([body.value]) == [BodyArg(body)];
      } else {
        assert [BodyArg(body)][0].NoneArg?;
      }
      var bodyElement :- soapenv.Call("Body", [BodyArg(body)], map[]);
      CallWithNodes(soapenv, "Envelope", [header, bodyElement]);
      r := soapenv.Call("Envelope", NodeArgs([header, bodyElement]), map[]);
    }

    /**
     * `request(url)`: a POST to `url or self.url` carrying the envelope.  The
     * request holds the message's own header dict, so later changes to the
     * message's HTTP headers show through it; no SOAPAction is ever added.
     */
    method Request(url: Option<string>) returns (r: Result<HttpRequest>)
      requires Valid()
      modifies this`nsmap, this`makers
      ensures Valid()
      ensures Target(url, this.url).Err? ==>
        r == Err(AttributeError("url")) && nsmap == old(nsmap) && makers == old(makers)
      ensures Target(url, this.url).Ok? && "soapenv" in old(nsmap) && old(nsmap)["soapenv"] != NS_SOAPENV ==>
        r == Err(NamespaceConflict("soapenv", old(nsmap)["soapenv"])) && nsmap == old(nsmap)
      ensures Target(url, this.url).Ok? && !("soapenv" in old(nsmap) && old(nsmap)["soapenv"] != NS_SOAPENV) ==>
        && nsmap == old(nsmap)["soapenv" := NS_SOAPENV]
        && (body.None? ==> r == Err(TypeError))
        && (body.Some? ==>
              && r.Ok? && r.value.verb == "POST" && r.value.url == Target(url, this.url).value
              && r.value.payload == Envelope(headers, body.value)
              && r.value.headers == httpHeaders)
      ensures Target(url, this.url).Err? || "soapenv" in old(nsmap) ==> makers == old(makers)
      ensures Target(url, this.url).Ok? && "soapenv" !in old(nsmap) ==>
        "soapenv" in makers && fresh(makers["soapenv"]) && makers == old(makers)["soapenv" := makers["soapenv"]]
    {
      var target :- Target(url, this.url);
      var envelope :- Etree();
      r := Ok(HttpRequest("POST", target, envelope, httpHeaders));
    }
  }
}
